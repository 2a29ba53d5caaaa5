/** The stack frame of an A32 function: which registers are saved, how the stack pointer is moved with
    immediates the hardware can encode, and that the epilog undoes the prolog. */
module Frame {
  import opened RegPool

  // ---------------------------------------------------------------- immediates

  function Pow4(n: nat): (p: nat)
    ensures p > 0
  {
    if n == 0 then 1 else 4 * Pow4(n - 1)
  }

  lemma {:induction false} Pow4Sum(a: nat, b: nat)
    ensures Pow4(a + b) == Pow4(a) * Pow4(b)
  {
    if a > 0 { Pow4Sum(a - 1, b); }
  }

  lemma {:induction false} Pow4Grows(a: nat, b: nat)
    requires a <= b
    ensures Pow4(a) <= Pow4(b)
  {
    if a < b { Pow4Grows(a, b - 1); }
  }

  lemma Pow4Values()
    ensures Pow4(4) == 256 && Pow4(12) == 0x100_0000 && Pow4(16) == 0x1_0000_0000
  {
    assert Pow4(2) == 16 && Pow4(4) == 256;
    Pow4Sum(4, 4);
    Pow4Sum(8, 4);
    Pow4Sum(12, 4);
  }

  /** An 8-bit value rotated right by an even amount within 32 bits. */
  function RotatedRight(imm: nat, rot: nat): int
    requires rot < 16
  {
    imm / Pow4(rot) + (imm % Pow4(rot)) * Pow4(16 - rot)
  }

  /** A modified immediate constant: section A5.2.4 of ARM DDI 0406C. */
  ghost predicate Encodable(v: nat) {
    exists imm: nat, rot: nat :: imm < 256 && rot < 16 && v == RotatedRight(imm, rot)
  }

  /** The leading bits of x that fit into a byte placed at an even position. */
  function HighByte(x: nat): nat {
    if x <= 255 then x else 4 * HighByte(x / 4)
  }

  lemma {:induction false} HighByteParts(x: nat, k: nat) returns (imm: nat, j: nat)
    requires x < 256 * Pow4(k)
    ensures j <= k && imm < 256 && HighByte(x) == imm * Pow4(j) && (x > 0 ==> imm > 0)
    ensures HighByte(x) <= x < HighByte(x) + Pow4(j)
  {
    if x <= 255 {
      imm, j := x, 0;
    } else {
      assert k > 0;
      imm, j := HighByteParts(x / 4, k - 1);
      j := j + 1;
      assert 4 * (imm * Pow4(j - 1)) == imm * Pow4(j);
    }
  }

  lemma ShiftedIsEncodable(imm: nat, j: nat)
    requires imm < 256 && j <= 12
    ensures Encodable(imm * Pow4(j))
  {
    if j == 0 {
      assert imm % 1 == 0 && RotatedRight(imm, 0) == imm;
    } else {
      var rot: nat := 16 - j;
      Pow4Values();
      Pow4Grows(4, rot);
      assert imm / Pow4(rot) == 0 && imm % Pow4(rot) == imm by { BelowDivisor(imm, Pow4(rot)); }
      assert RotatedRight(imm, rot) == imm * Pow4(j);
    }
  }

  lemma BelowDivisor(x: nat, d: nat)
    requires x < d
    ensures x / d == 0 && x % d == x
  {
  }

  lemma HighByteShrinks(x: nat)
    requires x > 0
    ensures 0 < HighByte(x) <= x
  {
    SomePow4(x);
    var k: nat :| x < 256 * Pow4(k);
    var imm, j := HighByteParts(x, k);
    assert imm * Pow4(j) > 0;
  }

  lemma {:induction false} SomePow4(x: nat)
    ensures exists k: nat :: x < 256 * Pow4(k)
  {
    if x <= 255 {
      assert x < 256 * Pow4(0);
    } else {
      SomePow4(x / 4);
      var k: nat :| x / 4 < 256 * Pow4(k);
      assert x < 256 * Pow4(k + 1);
    }
  }

  /** The immediates the stack pointer is moved by, in order. */
  function Chunks(size: nat): seq<nat> {
    if size == 0 then [] else
      HighByteShrinks(size);
      [HighByte(size)] + Chunks(size - HighByte(size))
  }

  function Sum(xs: seq<nat>): nat {
    if xs == [] then 0 else xs[0] + Sum(xs[1..])
  }

  lemma {:induction false} ChunksAddUp(size: nat)
    ensures Sum(Chunks(size)) == size
  {
    if size > 0 {
      HighByteShrinks(size);
      ChunksAddUp(size - HighByte(size));
    }
  }

  /** A 32-bit size needs four immediates at most, and the hardware can encode every one. */
  lemma {:induction false} ChunksFit(size: nat, n: nat)
    requires n <= 3 && size < 256 * Pow4(4 * n)
    ensures |Chunks(size)| <= n + 1 && forall c :: c in Chunks(size) ==> Encodable(c)
  {
    if size > 0 {
      HighByteShrinks(size);
      var imm, j := HighByteParts(size, 4 * n);
      ShiftedIsEncodable(imm, j);
      var rest := size - HighByte(size);
      if n == 0 {
        assert j == 0 && Pow4(0) == 1 && rest == 0 && Chunks(rest) == [];
      } else {
        Pow4Grows(j, 4 * n);
        Pow4Sum(4, 4 * (n - 1));
        Pow4Values();
        ChunksFit(rest, n - 1);
      }
    }
  }

  lemma FrameChunks(size: nat)
    requires size < 0x1_0000_0000
    ensures Sum(Chunks(size)) == size && |Chunks(size)| <= 4 && forall c :: c in Chunks(size) ==> Encodable(c)
  {
    Pow4Values();
    ChunksAddUp(size);
    ChunksFit(size, 3);
  }

  lemma ShiftOnce(x: nat, shift: nat)
    requires x > 255
    ensures HighByte(x / 4) * Pow4(shift + 1) == HighByte(x) * Pow4(shift)
  {
    var h, p := HighByte(x / 4), Pow4(shift);
    assert HighByte(x) == 4 * h && Pow4(shift + 1) == 4 * p;
    hide *;
    assert h * (4 * p) == (4 * h) * p;
  }

  method ComputeHighByte(x0: nat) returns (r: nat)
    ensures r == HighByte(x0)
  {
    var x: nat, shift: nat := x0, 0;
    while x > 255
      invariant HighByte(x) * Pow4(shift) == HighByte(x0)
    {
      ShiftOnce(x, shift);
      x, shift := x / 4, shift + 1;
    }
    r := x * Pow4(shift);
  }

  // ---------------------------------------------------------------- the machine

  const SP: nat := 13
  const LR: nat := 14
  const PC: nat := 15
  const WORD_SPACE: nat := 0x1_0000_0000

  datatype A32 =
    | Stm(regs: set<nat>)
    | Ldm(regs: set<nat>)
    | VstmS(count: nat, start: nat)
    | VldmS(count: nat, start: nat)
    | SubImm(imm: nat)
    | AddImm(imm: nat)
    | BxLr

  datatype Slot = Slot(no: nat)

  /** A register file, by register number. */
  type File = map<Slot, int>

  /** Core registers, single precision registers, and memory by address. */
  datatype Cpu = Cpu(gpr: File, flt: File, mem: map<int, int>)

  function At(m: File, k: nat): int { if Slot(k) in m then m[Slot(k)] else 0 }

  function Put(m: File, k: nat, v: int): File { m[Slot(k) := v] }

  function Wrap(a: int): int { a % WORD_SPACE }

  function WordAt(mem: map<int, int>, a: int): int { if Wrap(a) in mem then mem[Wrap(a)] else 0 }

  /** The registers of a mask below k, in ascending order. */
  function Listed(mask: set<nat>, k: nat): seq<nat> {
    if k == 0 then [] else Listed(mask, k - 1) + if k - 1 in mask then [k - 1] else []
  }

  function Range(start: nat, count: nat): (r: seq<nat>)
    ensures |r| == count && forall j :: 0 <= j < count ==> r[j] == start + j
  {
    seq(count, j requires 0 <= j < count => start + j)
  }

  /** Registers `list` go to ascending words from address a on. */
  function StoreAll(mem: map<int, int>, a: int, regs: File, list: seq<nat>): map<int, int> {
    if list == [] then mem
    else
      var n := |list| - 1;
      StoreAll(mem, a, regs, list[..n])[Wrap(a + 4 * n) := At(regs, list[n])]
  }

  function LoadAll(mem: map<int, int>, a: int, regs: File, list: seq<nat>): File {
    if list == [] then regs
    else
      var n := |list| - 1;
      Put(LoadAll(mem, a, regs, list[..n]), list[n], WordAt(mem, a + 4 * n))
  }

  /** What the instructions of a frame do; `stm` and `vstm` decrement before, `ldm` and `vldm`
      increment after, all with write-back to sp. */
  function Exec(i: A32, s: Cpu): Cpu {
    var sp := At(s.gpr, SP);
    match i
    case Stm(regs) =>
      var list := Listed(regs, 16);
      var a := Wrap(sp - 4 * |list|);
      Cpu(Put(s.gpr, SP, a), s.flt, StoreAll(s.mem, a, s.gpr, list))
    case Ldm(regs) =>
      var list := Listed(regs, 16);
      s.(gpr := LoadAll(s.mem, sp, Put(s.gpr, SP, Wrap(sp + 4 * |list|)), list))
    case VstmS(count, start) =>
      var a := Wrap(sp - 4 * count);
      Cpu(Put(s.gpr, SP, a), s.flt, StoreAll(s.mem, a, s.flt, Range(start, count)))
    case VldmS(count, start) =>
      s.(gpr := Put(s.gpr, SP, Wrap(sp + 4 * count)), flt := LoadAll(s.mem, sp, s.flt, Range(start, count)))
    case SubImm(imm) => s.(gpr := Put(s.gpr, SP, Wrap(sp - imm)))
    case AddImm(imm) => s.(gpr := Put(s.gpr, SP, Wrap(sp + imm)))
    case BxLr => s.(gpr := Put(s.gpr, PC, At(s.gpr, LR)))
  }

  function ExecAll(out: seq<A32>, s: Cpu): Cpu {
    if out == [] then s else Exec(out[|out| - 1], ExecAll(out[..|out| - 1], s))
  }

  lemma ExecOneMore(out: seq<A32>, i: A32, s: Cpu)
    ensures ExecAll(out + [i], s) == Exec(i, ExecAll(out, s))
  {
    assert (out + [i])[..|out|] == out;
    hide Exec;
  }

  lemma {:induction false} ExecBoth(a: seq<A32>, b: seq<A32>, s: Cpu)
    ensures ExecAll(a + b, s) == ExecAll(b, ExecAll(a, s))
  {
    hide Exec;
    if b == [] {
      assert a + b == a;
    } else {
      var b' := b[..|b| - 1];
      assert a + b == a + b' + [b[|b| - 1]] && b == b' + [b[|b| - 1]];
      ExecBoth(a, b', s);
      ExecOneMore(a + b', b[|b| - 1], s);
      ExecOneMore(b', b[|b| - 1], ExecAll(a, s));
    }
  }

  // -- words in memory

  /** Fewer words than addresses: they do not run into each other. */
  lemma WordsApart(a: int, j: nat, k: nat)
    requires j < 0x1000 && k < 0x1000 && Wrap(a + 4 * j) == Wrap(a + 4 * k)
    ensures j == k
  {
  }

  lemma {:induction false} StoredWord(mem: map<int, int>, a: int, regs: File, list: seq<nat>, j: nat)
    requires |list| < 0x1000 && j < 0x1000
    ensures WordAt(StoreAll(mem, a, regs, list), a + 4 * j) == if j < |list| then At(regs, list[j]) else WordAt(mem, a + 4 * j)
  {
    if list != [] {
      var n := |list| - 1;
      StoredWord(mem, a, regs, list[..n], j);
      if Wrap(a + 4 * j) == Wrap(a + 4 * n) { WordsApart(a, j, n); }
      hide Wrap, At;
    }
  }

  predicate NoneTwice(list: seq<nat>) { forall i, j :: 0 <= i < j < |list| ==> list[i] != list[j] }

  lemma {:induction false} LoadedReg(mem: map<int, int>, a: int, regs: File, list: seq<nat>, r: nat)
    requires NoneTwice(list)
    ensures r !in list ==> At(LoadAll(mem, a, regs, list), r) == At(regs, r)
    ensures forall j :: 0 <= j < |list| && list[j] == r ==> At(LoadAll(mem, a, regs, list), r) == WordAt(mem, a + 4 * j)
  {
    if list != [] {
      var n := |list| - 1;
      LoadedReg(mem, a, regs, list[..n], r);
      assert list == list[..n] + [list[n]];
      hide WordAt;
    }
  }

  lemma {:induction false} ListedIff(mask: set<nat>, k: nat)
    ensures forall r :: r in Listed(mask, k) <==> r in mask && r < k
    ensures NoneTwice(Listed(mask, k)) && |Listed(mask, k)| <= k
    ensures forall i, j :: 0 <= i < j < |Listed(mask, k)| ==> Listed(mask, k)[i] < Listed(mask, k)[j]
  {
    if k > 0 {
      ListedIff(mask, k - 1);
      var less := Listed(mask, k - 1);
      assert forall i :: 0 <= i < |less| ==> less[i] in less;
    }
  }

  // ---------------------------------------------------------------- the frame

  /** The registers the prolog saves and the epilog restores, and the size of the rest of the frame. */
  datatype EmitContext = EmitContext(stm: set<nat>, ldm: set<nat>, vstm: set<nat>, vldm: set<nat>, stkSize: nat)

  function MinOf(mask: set<nat>, from: nat): (m: nat)
    requires exists r :: r in mask && from <= r < 32
    ensures m in mask && from <= m < 32 && forall r :: r in mask && from <= r ==> m <= r
    decreases 32 - from
  {
    if from in mask then from else MinOf(mask, from + 1)
  }

  /** One past the highest register of the mask, or 0. */
  function EndOf(mask: set<nat>, below: nat): (e: nat)
    ensures e <= below && (forall r :: r in mask && r < below ==> r < e) && (e > 0 ==> e - 1 in mask)
  {
    if below == 0 then 0 else if below - 1 in mask then below else EndOf(mask, below - 1)
  }

  /** The registers `vstm` saves: all from the first to the last of the mask, gaps included. */
  function FltStart(mask: set<nat>): nat {
    if exists r :: r in mask && 0 <= r < 32 then MinOf(mask, 0) else 0
  }

  function FltCount(mask: set<nat>): nat {
    if exists r :: r in mask && 0 <= r < 32 then EndOf(mask, 32) - MinOf(mask, 0) else 0
  }

  /** Only called for masks with a register in them. */
  method ArmGetFltRegRanges(mask: set<nat>) returns (start: nat, count: nat)
    requires mask != {} && forall r :: r in mask ==> r < 32
    ensures start == FltStart(mask) && count == FltCount(mask)
    ensures start in mask && count > 0 && start + count - 1 in mask && forall r :: r in mask ==> start <= r < start + count
  {
    start, count := 0, 0;
    var r :| r in mask;
    while start !in mask
      invariant forall q :: q in mask ==> start <= q < 32
      decreases 32 - start
    {
      start := start + 1;
    }
    while exists q :: q in mask && start + count <= q
      invariant start + count <= 32 && (count > 0 ==> start + count - 1 in mask || exists q :: q in mask && start + count <= q)
      decreases 32 - count
    {
      count := count + 1;
    }
  }

  function Moves(chunks: seq<nat>, up: bool): seq<A32> {
    seq(|chunks|, k requires 0 <= k < |chunks| => if up then AddImm(chunks[k]) else SubImm(chunks[k]))
  }

  function Prolog(ctx: EmitContext): seq<A32> {
    (if ctx.stm != {} then [Stm(ctx.stm)] else []) +
    (if ctx.vstm != {} then [VstmS(FltCount(ctx.vstm), FltStart(ctx.vstm))] else []) +
    Moves(Chunks(ctx.stkSize), false)
  }

  function Epilog(ctx: EmitContext): seq<A32> {
    Moves(Chunks(ctx.stkSize), true) +
    (if ctx.vldm != {} then [VldmS(FltCount(ctx.vldm), FltStart(ctx.vldm))] else []) +
    (if ctx.ldm != {} then [Ldm(ctx.ldm)] else []) +
    (if PC !in ctx.ldm then [BxLr] else [])
  }

  function Delta(chunks: seq<nat>, up: bool): int { if up then Sum(chunks) else 0 - Sum(chunks) }

  lemma WrapAdd(a: int, b: int)
    ensures Wrap(Wrap(a) + b) == Wrap(a + b)
  {
  }

  function Signed(c: nat, up: bool): int { if up then c else 0 - c }

  /** Nothing but the stack pointer moved, by d. */
  ghost predicate MovedBy(s: Cpu, s': Cpu, d: int) {
    && s'.mem == s.mem && s'.flt == s.flt && (forall r :: r != SP ==> At(s'.gpr, r) == At(s.gpr, r))
    && Wrap(At(s'.gpr, SP)) == Wrap(At(s.gpr, SP) + d)
    && (At(s'.gpr, SP) == Wrap(At(s'.gpr, SP)) || s' == s)
  }

  lemma MovedOnce(s: Cpu, s': Cpu, d: int, c: nat, up: bool)
    requires MovedBy(s, s', d)
    ensures MovedBy(s, Exec(if up then AddImm(c) else SubImm(c), s'), d + Signed(c, up))
  {
    var e := Signed(c, up);
    var sp, sp' := At(s.gpr, SP), At(s'.gpr, SP);
    WrapAdd(sp', e);
    WrapAdd(sp + d, e);
    WrapAdd(sp' + e, 0);
    hide Wrap;
  }

  lemma {:induction false} MovesMove(chunks: seq<nat>, up: bool, s: Cpu)
    ensures MovedBy(s, ExecAll(Moves(chunks, up), s), Delta(chunks, up))
  {
    if chunks == [] {
      assert Moves(chunks, up) == [];
    } else {
      var n := |chunks| - 1;
      MovesMove(chunks[..n], up, s);
      var i := if up then AddImm(chunks[n]) else SubImm(chunks[n]);
      assert Moves(chunks, up) == Moves(chunks[..n], up) + [i];
      hide *;
      ExecOneMore(Moves(chunks[..n], up), i, s);
      MovedOnce(s, ExecAll(Moves(chunks[..n], up), s), Delta(chunks[..n], up), chunks[n], up);
      DeltaLast(chunks, up);
    }
  }

  lemma DeltaLast(chunks: seq<nat>, up: bool)
    requires chunks != []
    ensures var n := |chunks| - 1; Delta(chunks, up) == Delta(chunks[..n], up) + Signed(chunks[n], up)
  {
    SumLast(chunks);
  }

  lemma {:induction false} SumLast(xs: seq<nat>)
    requires xs != []
    ensures Sum(xs) == Sum(xs[..|xs| - 1]) + xs[|xs| - 1]
  {
    if |xs| > 1 {
      SumLast(xs[1..]);
      assert xs[1..][..|xs| - 2] == xs[..|xs| - 1][1..];
    }
  }

  // ---------------------------------------------------------------- in and out

  /** r6..r11 and s16..s31 belong to the caller, and lr is where to return to. */
  predicate WfContext(ctx: EmitContext) {
    && (forall r :: r in ctx.stm ==> 6 <= r < 12 || r == LR) && (forall r :: r in ctx.vstm ==> 16 <= r < 32)
    && ctx.ldm == (if LR in ctx.stm then ctx.stm - {LR} + {PC} else ctx.stm) && ctx.vldm == ctx.vstm
  }

  predicate SpFits(s: Cpu) { 0 <= At(s.gpr, SP) < WORD_SPACE }

  /** Registers `list` were pushed. */
  ghost predicate Pushed(s: Cpu, s': Cpu, regs: File, list: seq<nat>) {
    && s'.flt == s.flt && (forall r :: r != SP ==> At(s'.gpr, r) == At(s.gpr, r))
    && At(s'.gpr, SP) == Wrap(At(s.gpr, SP) - 4 * |list|)
    && forall j: nat :: j < 0x1000 ==> WordPushed(s, s', regs, list, j)
  }

  predicate WordPushed(s: Cpu, s': Cpu, regs: File, list: seq<nat>, j: nat) {
    WordAt(s'.mem, At(s'.gpr, SP) + 4 * j) == if j < |list| then At(regs, list[j]) else WordAt(s.mem, At(s'.gpr, SP) + 4 * j)
  }

  function AfterPush(s: Cpu, regs: File, list: seq<nat>): Cpu {
    var a := Wrap(At(s.gpr, SP) - 4 * |list|);
    Cpu(Put(s.gpr, SP, a), s.flt, StoreAll(s.mem, a, regs, list))
  }

  lemma PushList(s: Cpu, regs: File, list: seq<nat>)
    requires |list| <= 32
    ensures Pushed(s, AfterPush(s, regs, list), regs, list)
  {
    var s' := AfterPush(s, regs, list);
    PushedRegs(s, regs, list);
    forall j: nat | j < 0x1000
      ensures WordPushed(s, s', regs, list, j)
    {
      StoredWord(s.mem, At(s'.gpr, SP), regs, list, j);
      hide WordAt, StoreAll, Wrap, At, AfterPush;
    }
    hide WordAt, StoreAll, Wrap, At, AfterPush;
  }

  lemma PushedRegs(s: Cpu, regs: File, list: seq<nat>)
    ensures var s' := AfterPush(s, regs, list);
      && s'.flt == s.flt && (forall r :: r != SP ==> At(s'.gpr, r) == At(s.gpr, r))
      && At(s'.gpr, SP) == Wrap(At(s.gpr, SP) - 4 * |list|) && s'.mem == StoreAll(s.mem, At(s'.gpr, SP), regs, list)
  {
    hide StoreAll, Wrap;
  }

  lemma PushNothing(s: Cpu, regs: File)
    requires SpFits(s)
    ensures Pushed(s, s, regs, [])
  {
  }

  lemma ExecOne(i: A32, s: Cpu)
    ensures ExecAll([i], s) == Exec(i, s) && ExecAll([], s) == s
  {
    hide Exec;
    assert [i][..0] == [];
  }

  lemma NothingListed(k: nat)
    ensures Listed({}, k) == []
  {
  }

  lemma StmPushes(mask: set<nat>, count: nat, start: nat, s: Cpu)
    ensures Exec(Stm(mask), s) == AfterPush(s, s.gpr, Listed(mask, 16))
    ensures Exec(VstmS(count, start), s) == AfterPush(s, s.flt, Range(start, count))
  {
    hide StoreAll, Wrap, At, Listed;
  }

  lemma PushGpr(mask: set<nat>, s: Cpu)
    requires SpFits(s)
    ensures Pushed(s, ExecAll(if mask != {} then [Stm(mask)] else [], s), s.gpr, Listed(mask, 16))
  {
    hide *;
    var list := Listed(mask, 16);
    ListedIff(mask, 16);
    ExecOne(Stm(mask), s);
    StmPushes(mask, 0, 0, s);
    if mask == {} {
      NothingListed(16);
      PushNothing(s, s.gpr);
    } else {
      PushList(s, s.gpr, list);
    }
  }

  lemma FltCountFits(mask: set<nat>)
    requires forall r :: r in mask ==> 16 <= r < 32
    ensures mask != {} ==> FltStart(mask) in mask && FltCount(mask) > 0
    ensures 0 <= FltCount(mask) <= 32 && forall r :: r in mask ==> FltStart(mask) <= r < FltStart(mask) + FltCount(mask)
    ensures FltStart(mask) + FltCount(mask) <= 32
  {
    if r :| r in mask { assert r in mask && 0 <= r < 32; }
  }

  lemma PushFlt(mask: set<nat>, s: Cpu)
    requires SpFits(s) && forall r :: r in mask ==> 16 <= r < 32
    ensures Pushed(s, ExecAll(if mask != {} then [VstmS(FltCount(mask), FltStart(mask))] else [], s), s.flt, Range(FltStart(mask), FltCount(mask)))
  {
    hide *;
    FltCountFits(mask);
    var count, start := FltCount(mask), FltStart(mask);
    ExecOne(VstmS(count, start), s);
    StmPushes({}, count, start, s);
    NoFlt(mask);
    if mask == {} {
      assert Range(start, count) == [];
      PushNothing(s, s.flt);
    } else {
      PushList(s, s.flt, Range(start, count));
    }
  }

  lemma NoFlt(mask: set<nat>)
    ensures mask == {} ==> FltCount(mask) == 0
  {
  }

  /** The saved registers lie in memory, from `base` up: first single precision, then core registers. */
  ghost predicate SavedAt(ctx: EmitContext, s0: Cpu, mem: map<int, int>, base: int) {
    && (forall j: nat :: j < FltCount(ctx.vstm) ==> WordAt(mem, base + 4 * j) == At(s0.flt, FltStart(ctx.vstm) + j))
    && (forall j: nat :: j < |Listed(ctx.stm, 16)| ==>
          WordAt(mem, base + 4 * (FltCount(ctx.vstm) + j)) == At(s0.gpr, Listed(ctx.stm, 16)[j]))
  }

  function SavedWords(ctx: EmitContext): nat
    requires WfContext(ctx)
  {
    FltCountFits(ctx.vstm);
    |Listed(ctx.stm, 16)| + FltCount(ctx.vstm)
  }

  /** After the prolog. */
  ghost predicate Framed(ctx: EmitContext, s0: Cpu, s1: Cpu)
    requires WfContext(ctx)
  {
    && s1.flt == s0.flt && (forall r :: r != SP ==> At(s1.gpr, r) == At(s0.gpr, r))
    && At(s1.gpr, SP) == Wrap(At(s0.gpr, SP) - 4 * SavedWords(ctx) - ctx.stkSize)
    && SavedAt(ctx, s0, s1.mem, Wrap(At(s0.gpr, SP) - 4 * SavedWords(ctx)))
  }

  lemma PushedBoth(ctx: EmitContext, s0: Cpu, t1: Cpu, t2: Cpu)
    requires WfContext(ctx)
    requires Pushed(s0, t1, s0.gpr, Listed(ctx.stm, 16)) && Pushed(t1, t2, t1.flt, Range(FltStart(ctx.vstm), FltCount(ctx.vstm)))
    ensures At(t2.gpr, SP) == Wrap(At(s0.gpr, SP) - 4 * SavedWords(ctx)) && SavedAt(ctx, s0, t2.mem, At(t2.gpr, SP))
  {
    hide *;
    ContextMasks(ctx);
    FltCountFits(ctx.vstm);
    ListedIff(ctx.stm, 16);
    SavedWordsIs(ctx);
    var count, start, list := FltCount(ctx.vstm), FltStart(ctx.vstm), Listed(ctx.stm, 16);
    PushedSp(s0, t1, t2, s0.gpr, t1.flt, list, Range(start, count));
    forall j: nat | j < count ensures WordAt(t2.mem, At(t2.gpr, SP) + 4 * j) == At(s0.flt, start + j) {
      PushedWord(t1, t2, t1.flt, Range(start, count), j);
      PushedWord(s0, t1, s0.gpr, list, 0);
    }
    forall j: nat | j < |list| ensures WordAt(t2.mem, At(t2.gpr, SP) + 4 * (count + j)) == At(s0.gpr, list[j]) {
      var k := count + j;
      PushedWord(t1, t2, t1.flt, Range(start, count), k);
      PushedWord(s0, t1, s0.gpr, list, j);
      PushedAbove(t1, t2, t1.flt, Range(start, count), j);
    }
    SavedAtIs(ctx, s0, t2.mem, At(t2.gpr, SP));
  }

  lemma ContextMasks(ctx: EmitContext)
    requires WfContext(ctx)
    ensures forall r :: r in ctx.vstm ==> 16 <= r < 32
  {
  }

  lemma SavedWordsIs(ctx: EmitContext)
    requires WfContext(ctx)
    ensures SavedWords(ctx) == |Listed(ctx.stm, 16)| + FltCount(ctx.vstm)
  {
  }

  lemma SavedAtIs(ctx: EmitContext, s0: Cpu, mem: map<int, int>, base: int)
    requires forall j: nat :: j < FltCount(ctx.vstm) ==> WordAt(mem, base + 4 * j) == At(s0.flt, FltStart(ctx.vstm) + j)
    requires forall j: nat :: j < |Listed(ctx.stm, 16)| ==>
               WordAt(mem, base + 4 * (FltCount(ctx.vstm) + j)) == At(s0.gpr, Listed(ctx.stm, 16)[j])
    ensures SavedAt(ctx, s0, mem, base)
  {
    hide FltCount, FltStart, Listed, WordAt, At;
  }

  lemma PushedSp(s0: Cpu, t1: Cpu, t2: Cpu, r1: File, r2: File, l1: seq<nat>, l2: seq<nat>)
    requires Pushed(s0, t1, r1, l1) && Pushed(t1, t2, r2, l2)
    ensures At(t2.gpr, SP) == Wrap(At(s0.gpr, SP) - 4 * (|l1| + |l2|))
  {
    WrapAdd(At(s0.gpr, SP) - 4 * |l1|, 0 - 4 * |l2|);
    hide WordAt, Wrap, At;
  }

  lemma PushedWord(s: Cpu, s': Cpu, regs: File, list: seq<nat>, j: nat)
    requires Pushed(s, s', regs, list) && j < 0x1000
    ensures WordAt(s'.mem, At(s'.gpr, SP) + 4 * j) == if j < |list| then At(regs, list[j]) else WordAt(s.mem, At(s'.gpr, SP) + 4 * j)
    ensures s'.flt == s.flt && forall r :: r != SP ==> At(s'.gpr, r) == At(s.gpr, r)
  {
    assert WordPushed(s, s', regs, list, j);
    hide WordAt, Wrap, At;
  }

  /** The words above what was pushed are where they were before. */
  lemma PushedAbove(s: Cpu, s': Cpu, regs: File, list: seq<nat>, j: nat)
    requires Pushed(s, s', regs, list)
    ensures WordAt(s.mem, At(s'.gpr, SP) + 4 * (|list| + j)) == WordAt(s.mem, At(s.gpr, SP) + 4 * j)
  {
    WrapAdd(At(s.gpr, SP) - 4 * |list|, 4 * (|list| + j));
    SameWord(s.mem, At(s'.gpr, SP) + 4 * (|list| + j), At(s.gpr, SP) + 4 * j);
    hide WordAt, Wrap, At;
  }

  lemma SameWord(mem: map<int, int>, a: int, b: int)
    requires Wrap(a) == Wrap(b)
    ensures WordAt(mem, a) == WordAt(mem, b)
  {
  }

  lemma PrologFrames(ctx: EmitContext, s0: Cpu)
    requires WfContext(ctx) && SpFits(s0)
    ensures Framed(ctx, s0, ExecAll(Prolog(ctx), s0))
  {
    hide *;
    ContextMasks(ctx);
    var a := if ctx.stm != {} then [Stm(ctx.stm)] else [];
    var b := if ctx.vstm != {} then [VstmS(FltCount(ctx.vstm), FltStart(ctx.vstm))] else [];
    var c := Moves(Chunks(ctx.stkSize), false);
    PrologIs(ctx);
    var t1 := ExecAll(a, s0);
    var t2 := ExecAll(b, t1);
    PushGpr(ctx.stm, s0);
    PushedFits(s0, t1, s0.gpr, Listed(ctx.stm, 16));
    PushFlt(ctx.vstm, t1);
    PushedFits(t1, t2, t1.flt, Range(FltStart(ctx.vstm), FltCount(ctx.vstm)));
    ExecBoth(a, b, s0);
    ExecBoth(a + b, c, s0);
    MovesMove(Chunks(ctx.stkSize), false, t2);
    PushedBoth(ctx, s0, t1, t2);
    FramedIs(ctx, s0, t2, ExecAll(c, t2));
  }

  lemma PrologIs(ctx: EmitContext)
    ensures Prolog(ctx) == (if ctx.stm != {} then [Stm(ctx.stm)] else []) +
                           (if ctx.vstm != {} then [VstmS(FltCount(ctx.vstm), FltStart(ctx.vstm))] else []) + Moves(Chunks(ctx.stkSize), false)
  {
    hide Moves, Chunks, FltCount, FltStart;
  }

  lemma PushedFits(s: Cpu, s': Cpu, regs: File, list: seq<nat>)
    requires Pushed(s, s', regs, list)
    ensures SpFits(s') && s'.flt == s.flt && forall r :: r != SP ==> At(s'.gpr, r) == At(s.gpr, r)
  {
    hide WordAt, At;
  }

  lemma DownSum(p: int, words: int, size: int, high: int, low: int)
    requires high == Wrap(p - 4 * words) && Wrap(low) == Wrap(high - size) && (low == Wrap(low) || low == high)
    ensures low == Wrap(p - 4 * words - size)
  {
    WrapAdd(p - 4 * words, 0 - size);
    WrapAdd(p - 4 * words, 0);
    hide Wrap;
  }

  lemma FramedIs(ctx: EmitContext, s0: Cpu, t2: Cpu, s1: Cpu)
    requires WfContext(ctx) && t2.flt == s0.flt && (forall r :: r != SP ==> At(t2.gpr, r) == At(s0.gpr, r))
    requires At(t2.gpr, SP) == Wrap(At(s0.gpr, SP) - 4 * SavedWords(ctx)) && SavedAt(ctx, s0, t2.mem, At(t2.gpr, SP))
    requires MovedBy(t2, s1, Delta(Chunks(ctx.stkSize), false))
    ensures Framed(ctx, s0, s1)
  {
    ChunksAddUp(ctx.stkSize);
    DeltaIs(Chunks(ctx.stkSize), false);
    hide Chunks, SavedAt, At, SavedWords, WfContext, Sum, Wrap, Delta;
    DownSum(At(s0.gpr, SP), SavedWords(ctx), ctx.stkSize, At(t2.gpr, SP), At(s1.gpr, SP));
  }

  /** What the function may do between prolog and epilog: anything, as long as the stack pointer comes
      back, the saved words stay, and the caller's registers that were not saved stay. */
  ghost predicate BodyKeeps(ctx: EmitContext, s1: Cpu, s2: Cpu)
    requires WfContext(ctx)
  {
    && At(s2.gpr, SP) == At(s1.gpr, SP)
    && (forall j: nat :: j < SavedWords(ctx) ==>
          WordAt(s2.mem, Wrap(At(s1.gpr, SP) + ctx.stkSize) + 4 * j) == WordAt(s1.mem, Wrap(At(s1.gpr, SP) + ctx.stkSize) + 4 * j))
    && (forall r :: (6 <= r < 12 || r == LR) && r !in ctx.stm ==> At(s2.gpr, r) == At(s1.gpr, r))
    && (forall r :: 16 <= r < 32 && !(FltStart(ctx.vstm) <= r < FltStart(ctx.vstm) + FltCount(ctx.vstm)) ==> At(s2.flt, r) == At(s1.flt, r))
  }

  /** Back at the caller: the stack pointer and the caller's registers are as they were, and execution
      goes on where lr pointed to. */
  ghost predicate Restored(s0: Cpu, s3: Cpu) {
    && At(s3.gpr, SP) == At(s0.gpr, SP) && At(s3.gpr, PC) == At(s0.gpr, LR)
    && (forall r :: 6 <= r < 12 ==> At(s3.gpr, r) == At(s0.gpr, r))
    && (forall r :: 16 <= r < 32 ==> At(s3.flt, r) == At(s0.flt, r))
  }

  lemma PopFlt(count: nat, start: nat, s: Cpu)
    ensures var s' := Exec(VldmS(count, start), s);
      && s'.mem == s.mem && At(s'.gpr, SP) == Wrap(At(s.gpr, SP) + 4 * count) && (forall r :: r != SP ==> At(s'.gpr, r) == At(s.gpr, r))
      && (forall r: nat :: !(start <= r < start + count) ==> At(s'.flt, r) == At(s.flt, r))
      && (forall j: nat :: j < count ==> At(s'.flt, start + j) == WordAt(s.mem, At(s.gpr, SP) + 4 * j))
  {
    var list := Range(start, count);
    var sp := At(s.gpr, SP);
    forall r: nat ensures !(start <= r < start + count) ==> At(LoadAll(s.mem, sp, s.flt, list), r) == At(s.flt, r) {
      LoadedReg(s.mem, sp, s.flt, list, r);
      hide At, LoadAll;
    }
    forall j: nat | j < count ensures At(LoadAll(s.mem, sp, s.flt, list), start + j) == WordAt(s.mem, sp + 4 * j) {
      LoadedReg(s.mem, sp, s.flt, list, start + j);
      assert list[j] == start + j;
      hide At, LoadAll, WordAt;
    }
    hide LoadAll, WordAt, Wrap;
  }

  lemma PopGpr(mask: set<nat>, s: Cpu)
    requires SP !in mask && forall r :: r in mask ==> r < 16
    ensures var s', list := Exec(Ldm(mask), s), Listed(mask, 16);
      && s'.mem == s.mem && s'.flt == s.flt && At(s'.gpr, SP) == Wrap(At(s.gpr, SP) + 4 * |list|)
      && (forall r :: r !in mask && r != SP ==> At(s'.gpr, r) == At(s.gpr, r))
      && (forall j: nat :: j < |list| ==> At(s'.gpr, list[j]) == WordAt(s.mem, At(s.gpr, SP) + 4 * j))
  {
    var s', list := Exec(Ldm(mask), s), Listed(mask, 16);
    ListedIff(mask, 16);
    var before := Put(s.gpr, SP, Wrap(At(s.gpr, SP) + 4 * |list|));
    ExecLdm(mask, s);
    hide *;
    SetAt(s.gpr, SP, Wrap(At(s.gpr, SP) + 4 * |list|));
    LoadedReg(s.mem, At(s.gpr, SP), before, list, SP);
    forall r | r !in mask && r != SP ensures At(s'.gpr, r) == At(s.gpr, r) {
      LoadedReg(s.mem, At(s.gpr, SP), before, list, r);
    }
    forall j: nat | j < |list| ensures At(s'.gpr, list[j]) == WordAt(s.mem, At(s.gpr, SP) + 4 * j) {
      LoadedReg(s.mem, At(s.gpr, SP), before, list, list[j]);
    }
  }

  lemma ExecLdm(mask: set<nat>, s: Cpu)
    ensures var list := Listed(mask, 16);
      Exec(Ldm(mask), s) == s.(gpr := LoadAll(s.mem, At(s.gpr, SP), Put(s.gpr, SP, Wrap(At(s.gpr, SP) + 4 * |list|)), list))
  {
    hide LoadAll, Wrap, At, Listed;
  }

  lemma SetAt(m: File, k: nat, v: int)
    ensures forall r: nat :: At(Put(m, k, v), r) == if r == k then v else At(m, r)
  {
  }

  /** pc stands in the list of `ldm` where lr stands in the list of `stm`, last; the rest is the same. */
  lemma SameOrder(ctx: EmitContext)
    requires WfContext(ctx)
    ensures |Listed(ctx.ldm, 16)| == |Listed(ctx.stm, 16)|
    ensures forall j :: 0 <= j < |Listed(ctx.stm, 16)| ==>
              Listed(ctx.ldm, 16)[j] == if Listed(ctx.stm, 16)[j] == LR then PC else Listed(ctx.stm, 16)[j]
  {
    SameBelow(ctx.stm, ctx.ldm, 14);
    assert Listed(ctx.stm, 15) == Listed(ctx.stm, 14) + if LR in ctx.stm then [LR] else [];
    assert Listed(ctx.ldm, 15) == Listed(ctx.ldm, 14);
    assert Listed(ctx.stm, 16) == Listed(ctx.stm, 15);
    assert Listed(ctx.ldm, 16) == Listed(ctx.ldm, 15) + if LR in ctx.stm then [PC] else [];
    ListedIff(ctx.stm, 14);
    hide Listed;
    assert forall r :: r in Listed(ctx.stm, 14) ==> r < 14;
  }

  lemma {:induction false} SameBelow(a: set<nat>, b: set<nat>, k: nat)
    requires forall r: nat :: r < k ==> (r in a <==> r in b)
    ensures Listed(a, k) == Listed(b, k)
  {
    if k > 0 { SameBelow(a, b, k - 1); }
  }

  // -- the epilog, step by step

  /** Back where the saved words are, before anything is loaded. */
  ghost predicate BeforeLoads(ctx: EmitContext, s0: Cpu, s2: Cpu, t: Cpu)
    requires WfContext(ctx)
  {
    && t.flt == s2.flt && (forall r :: r != SP ==> At(t.gpr, r) == At(s2.gpr, r))
    && At(t.gpr, SP) == Wrap(At(s0.gpr, SP) - 4 * SavedWords(ctx)) && SavedAt(ctx, s0, t.mem, At(t.gpr, SP))
  }

  lemma MovedBack(ctx: EmitContext, s0: Cpu, s1: Cpu, s2: Cpu)
    requires WfContext(ctx) && Framed(ctx, s0, s1) && BodyKeeps(ctx, s1, s2) && SpFits(s0)
    ensures BeforeLoads(ctx, s0, s2, ExecAll(Moves(Chunks(ctx.stkSize), true), s2))
  {
    hide *;
    var t := ExecAll(Moves(Chunks(ctx.stkSize), true), s2);
    MovesMove(Chunks(ctx.stkSize), true, s2);
    UpAgain(ctx, s0, s1, s2, t);
    BodyParts(ctx, s0, s1, s2);
    SavedStays(ctx, s0, s1.mem, s2.mem, Wrap(At(s0.gpr, SP) - 4 * SavedWords(ctx)));
    BeforeLoadsIs(ctx, s0, s2, t);
  }

  lemma UpSum(p: int, words: int, size: int, low: int, high: int)
    requires low == Wrap(p - 4 * words - size) && Wrap(high) == Wrap(low + size) && (high == Wrap(high) || high == low)
    ensures high == Wrap(p - 4 * words) == Wrap(low + size)
  {
    WrapAdd(p - 4 * words - size, size);
    WrapAdd(p - 4 * words - size, 0);
    hide Wrap;
  }

  /** Up by what the prolog went down: the stack pointer is at the saved words. */
  lemma UpAgain(ctx: EmitContext, s0: Cpu, s1: Cpu, s2: Cpu, t: Cpu)
    requires WfContext(ctx) && Framed(ctx, s0, s1) && BodyKeeps(ctx, s1, s2) && SpFits(s0)
    requires MovedBy(s2, t, Delta(Chunks(ctx.stkSize), true))
    ensures At(t.gpr, SP) == Wrap(At(s0.gpr, SP) - 4 * SavedWords(ctx))
    ensures t.mem == s2.mem && t.flt == s2.flt && (forall r :: r != SP ==> At(t.gpr, r) == At(s2.gpr, r))
    ensures Wrap(At(s1.gpr, SP) + ctx.stkSize) == Wrap(At(s0.gpr, SP) - 4 * SavedWords(ctx))
  {
    ChunksAddUp(ctx.stkSize);
    DeltaIs(Chunks(ctx.stkSize), true);
    hide Chunks, SavedAt, At, SavedWords, WfContext, Sum, WordAt, FltCount, FltStart, Wrap, Delta;
    UpSum(At(s0.gpr, SP), SavedWords(ctx), ctx.stkSize, At(s2.gpr, SP), At(t.gpr, SP));
  }

  lemma DeltaIs(chunks: seq<nat>, up: bool)
    ensures Delta(chunks, up) == if up then Sum(chunks) else 0 - Sum(chunks)
  {
  }

  lemma BodyParts(ctx: EmitContext, s0: Cpu, s1: Cpu, s2: Cpu)
    requires WfContext(ctx) && Framed(ctx, s0, s1) && BodyKeeps(ctx, s1, s2)
    ensures SavedAt(ctx, s0, s1.mem, Wrap(At(s0.gpr, SP) - 4 * SavedWords(ctx)))
    ensures var base := Wrap(At(s1.gpr, SP) + ctx.stkSize);
              forall j: nat :: j < SavedWords(ctx) ==> WordAt(s2.mem, base + 4 * j) == WordAt(s1.mem, base + 4 * j)
    ensures forall r :: (6 <= r < 12 || r == LR) && r !in ctx.stm ==> At(s2.gpr, r) == At(s0.gpr, r)
    ensures forall r :: 16 <= r < 32 && !(FltStart(ctx.vstm) <= r < FltStart(ctx.vstm) + FltCount(ctx.vstm)) ==> At(s2.flt, r) == At(s0.flt, r)
  {
    hide SavedAt, At, SavedWords, WfContext, WordAt, FltCount, FltStart, Wrap;
  }

  lemma BeforeLoadsIs(ctx: EmitContext, s0: Cpu, s2: Cpu, t: Cpu)
    requires WfContext(ctx) && t.flt == s2.flt && (forall r :: r != SP ==> At(t.gpr, r) == At(s2.gpr, r))
    requires At(t.gpr, SP) == Wrap(At(s0.gpr, SP) - 4 * SavedWords(ctx)) && SavedAt(ctx, s0, t.mem, At(t.gpr, SP))
    ensures BeforeLoads(ctx, s0, s2, t)
  {
    hide SavedAt, At, SavedWords, WfContext, Wrap;
  }

  lemma SavedStays(ctx: EmitContext, s0: Cpu, mem: map<int, int>, mem': map<int, int>, base: int)
    requires WfContext(ctx) && SavedAt(ctx, s0, mem, base)
    requires forall j: nat :: j < SavedWords(ctx) ==> WordAt(mem', base + 4 * j) == WordAt(mem, base + 4 * j)
    ensures SavedAt(ctx, s0, mem', base)
  {
    SavedWordsIs(ctx);
    var count, start, list := FltCount(ctx.vstm), FltStart(ctx.vstm), Listed(ctx.stm, 16);
    hide FltCount, FltStart, Listed, WordAt, At, SavedWords;
    forall j: nat | j < count ensures WordAt(mem', base + 4 * j) == At(s0.flt, start + j) {
      assert j < SavedWords(ctx);
    }
    forall j: nat | j < |list| ensures WordAt(mem', base + 4 * (count + j)) == At(s0.gpr, list[j]) {
      var k := count + j;
      assert k < SavedWords(ctx) && WordAt(mem', base + 4 * k) == WordAt(mem, base + 4 * k);
    }
  }

  /** After the single precision registers are back. */
  ghost predicate FltBack(ctx: EmitContext, s0: Cpu, s2: Cpu, t: Cpu)
    requires WfContext(ctx)
  {
    && (forall r :: r != SP ==> At(t.gpr, r) == At(s2.gpr, r)) && (forall r :: 16 <= r < 32 ==> At(t.flt, r) == At(s0.flt, r))
    && At(t.gpr, SP) == Wrap(At(s0.gpr, SP) - 4 * |Listed(ctx.stm, 16)|)
    && (forall j: nat :: j < |Listed(ctx.stm, 16)| ==> WordAt(t.mem, At(t.gpr, SP) + 4 * j) == At(s0.gpr, Listed(ctx.stm, 16)[j]))
  }

  lemma FltComesBack(ctx: EmitContext, s0: Cpu, s2: Cpu, t: Cpu)
    requires WfContext(ctx) && BeforeLoads(ctx, s0, s2, t)
    requires forall r :: 16 <= r < 32 && !(FltStart(ctx.vstm) <= r < FltStart(ctx.vstm) + FltCount(ctx.vstm)) ==> At(s2.flt, r) == At(s0.flt, r)
    ensures FltBack(ctx, s0, s2, ExecAll(if ctx.vldm != {} then [VldmS(FltCount(ctx.vldm), FltStart(ctx.vldm))] else [], t))
  {
    hide *;
    var count, start, list := FltCount(ctx.vstm), FltStart(ctx.vstm), Listed(ctx.stm, 16);
    var i := VldmS(count, start);
    ContextMasks(ctx);
    LoadsParts(ctx, s0, s2, t);
    NoFlt(ctx.vstm);
    ExecOne(i, t);
    PopFlt(count, start, t);
    var u := ExecAll(if ctx.vldm != {} then [VldmS(FltCount(ctx.vldm), FltStart(ctx.vldm))] else [], t);
    forall r | 16 <= r < 32 ensures At(u.flt, r) == At(s0.flt, r) {
      if start <= r < start + count {
        var j: nat := r - start;
        if ctx.vstm != {} { assert At(u.flt, start + j) == WordAt(t.mem, At(t.gpr, SP) + 4 * j); }
      }
    }
    WrapAdd(At(s0.gpr, SP) - 4 * (|list| + count), 4 * count);
    forall j: nat | j < |list| ensures WordAt(u.mem, At(u.gpr, SP) + 4 * j) == At(s0.gpr, list[j]) {
      WrapAdd(At(t.gpr, SP) + 4 * count, 4 * j);
      if ctx.vstm != {} { SameWord(u.mem, At(u.gpr, SP) + 4 * j, At(t.gpr, SP) + 4 * (count + j)); }
    }
    FltBackIs(ctx, s0, s2, u);
  }

  lemma LoadsParts(ctx: EmitContext, s0: Cpu, s2: Cpu, t: Cpu)
    requires WfContext(ctx) && BeforeLoads(ctx, s0, s2, t)
    ensures t.flt == s2.flt && (forall r :: r != SP ==> At(t.gpr, r) == At(s2.gpr, r)) && ctx.vldm == ctx.vstm
    ensures At(t.gpr, SP) == Wrap(At(s0.gpr, SP) - 4 * (|Listed(ctx.stm, 16)| + FltCount(ctx.vstm))) && 0 <= FltCount(ctx.vstm)
    ensures forall j: nat :: j < FltCount(ctx.vstm) ==> WordAt(t.mem, At(t.gpr, SP) + 4 * j) == At(s0.flt, FltStart(ctx.vstm) + j)
    ensures forall j: nat :: j < |Listed(ctx.stm, 16)| ==>
              WordAt(t.mem, At(t.gpr, SP) + 4 * (FltCount(ctx.vstm) + j)) == At(s0.gpr, Listed(ctx.stm, 16)[j])
    ensures FltCount(ctx.vstm) >= 0 && (ctx.vstm == {} ==> FltCount(ctx.vstm) == 0)
  {
    FltCountFits(ctx.vstm);
    SavedWordsIs(ctx);
    NoFlt(ctx.vstm);
    hide At, WordAt, FltCount, FltStart, Listed, Wrap, SavedWords;
  }

  lemma FltBackIs(ctx: EmitContext, s0: Cpu, s2: Cpu, t: Cpu)
    requires WfContext(ctx) && (forall r :: r != SP ==> At(t.gpr, r) == At(s2.gpr, r)) && (forall r :: 16 <= r < 32 ==> At(t.flt, r) == At(s0.flt, r))
    requires At(t.gpr, SP) == Wrap(At(s0.gpr, SP) - 4 * |Listed(ctx.stm, 16)|)
    requires forall j: nat :: j < |Listed(ctx.stm, 16)| ==> WordAt(t.mem, At(t.gpr, SP) + 4 * j) == At(s0.gpr, Listed(ctx.stm, 16)[j])
    ensures FltBack(ctx, s0, s2, t)
  {
    hide At, WordAt, Listed, Wrap, WfContext;
  }

  /** After the core registers are back; pc holds the old lr if lr was saved. */
  ghost predicate GprBack(ctx: EmitContext, s0: Cpu, t: Cpu) {
    && At(t.gpr, SP) == At(s0.gpr, SP) && (forall r :: 6 <= r < 12 ==> At(t.gpr, r) == At(s0.gpr, r))
    && (forall r :: 16 <= r < 32 ==> At(t.flt, r) == At(s0.flt, r))
    && At(t.gpr, if LR in ctx.stm then PC else LR) == At(s0.gpr, LR)
  }

  lemma GprComesBack(ctx: EmitContext, s0: Cpu, s2: Cpu, t: Cpu)
    requires WfContext(ctx) && SpFits(s0) && FltBack(ctx, s0, s2, t)
    requires forall r :: (6 <= r < 12 || r == LR) && r !in ctx.stm ==> At(s2.gpr, r) == At(s0.gpr, r)
    ensures GprBack(ctx, s0, ExecAll(if ctx.ldm != {} then [Ldm(ctx.ldm)] else [], t))
  {
    hide *;
    var u := ExecAll(if ctx.ldm != {} then [Ldm(ctx.ldm)] else [], t);
    ExecOne(Ldm(ctx.ldm), t);
    LdmMask(ctx);
    ListedIff(ctx.stm, 16);
    SameOrder(ctx);
    FltBackParts(ctx, s0, s2, t);
    var list := Listed(ctx.stm, 16);
    if ctx.ldm == {} {
      NothingListed(16);
      NothingWraps(s0, t);
    } else {
      PopGpr(ctx.ldm, t);
      UpToStart(s0, t, |list|);
      forall r: nat | (6 <= r < 12 || r == LR) && r in ctx.stm ensures At(u.gpr, if r == LR then PC else r) == At(s0.gpr, r) {
        var j: nat :| j < |list| && list[j] == r;
        assert Listed(ctx.ldm, 16)[j] == if r == LR then PC else r;
      }
    }
    GprBackIs(ctx, s0, u);
  }

  lemma LdmMask(ctx: EmitContext)
    requires WfContext(ctx)
    ensures SP !in ctx.ldm && (forall r :: r in ctx.ldm ==> r < 16) && (ctx.ldm == {} <==> ctx.stm == {}) && LR !in ctx.ldm
    ensures (PC in ctx.ldm <==> LR in ctx.stm) && forall r :: r < 12 ==> (r in ctx.ldm <==> r in ctx.stm)
    ensures SP == 13 && LR == 14 && PC == 15
  {
    if ctx.stm != {} {
      var r :| r in ctx.stm;
      assert (if r == LR then PC else r) in ctx.ldm;
    }
  }

  lemma FltBackParts(ctx: EmitContext, s0: Cpu, s2: Cpu, t: Cpu)
    requires WfContext(ctx) && FltBack(ctx, s0, s2, t)
    ensures (forall r :: r != SP ==> At(t.gpr, r) == At(s2.gpr, r)) && (forall r :: 16 <= r < 32 ==> At(t.flt, r) == At(s0.flt, r))
    ensures At(t.gpr, SP) == Wrap(At(s0.gpr, SP) - 4 * |Listed(ctx.stm, 16)|)
    ensures forall j: nat :: j < |Listed(ctx.stm, 16)| ==> WordAt(t.mem, At(t.gpr, SP) + 4 * j) == At(s0.gpr, Listed(ctx.stm, 16)[j])
  {
    hide At, WordAt, Listed, Wrap, WfContext;
  }

  lemma NothingWraps(s0: Cpu, t: Cpu)
    requires SpFits(s0) && At(t.gpr, SP) == Wrap(At(s0.gpr, SP) - 4 * 0)
    ensures At(t.gpr, SP) == At(s0.gpr, SP)
  {
    hide At;
  }

  lemma UpToStart(s0: Cpu, t: Cpu, n: nat)
    requires SpFits(s0) && At(t.gpr, SP) == Wrap(At(s0.gpr, SP) - 4 * n)
    ensures Wrap(At(t.gpr, SP) + 4 * n) == At(s0.gpr, SP)
  {
    WrapAdd(At(s0.gpr, SP) - 4 * n, 4 * n);
    hide At;
  }

  lemma GprBackIs(ctx: EmitContext, s0: Cpu, t: Cpu)
    requires At(t.gpr, SP) == At(s0.gpr, SP) && (forall r :: 6 <= r < 12 ==> At(t.gpr, r) == At(s0.gpr, r))
    requires (forall r :: 16 <= r < 32 ==> At(t.flt, r) == At(s0.flt, r)) && At(t.gpr, if LR in ctx.stm then PC else LR) == At(s0.gpr, LR)
    ensures GprBack(ctx, s0, t)
  {
  }

  lemma Returns(ctx: EmitContext, s0: Cpu, t: Cpu)
    requires WfContext(ctx) && GprBack(ctx, s0, t)
    ensures Restored(s0, ExecAll(if PC !in ctx.ldm then [BxLr] else [], t))
  {
    LdmMask(ctx);
    ExecOne(BxLr, t);
    hide ExecAll, WfContext;
  }

  /** Memory and the registers that nobody saved: results, and what a call may change. */
  ghost predicate Untouched(s: Cpu, s': Cpu) {
    && s'.mem == s.mem && (forall r: nat :: r < 6 || r == 12 ==> At(s'.gpr, r) == At(s.gpr, r))
    && (forall r: nat :: r < 16 ==> At(s'.flt, r) == At(s.flt, r))
  }

  lemma UntouchedTwice(s: Cpu, t: Cpu, u: Cpu)
    requires Untouched(s, t) && Untouched(t, u)
    ensures Untouched(s, u)
  {
  }

  lemma MovesUntouched(chunks: seq<nat>, up: bool, s: Cpu)
    ensures Untouched(s, ExecAll(Moves(chunks, up), s))
  {
    MovesMove(chunks, up, s);
    hide ExecAll, Moves, Delta;
  }

  lemma FltUntouched(ctx: EmitContext, s: Cpu)
    requires WfContext(ctx)
    ensures Untouched(s, ExecAll(if ctx.vldm != {} then [VldmS(FltCount(ctx.vldm), FltStart(ctx.vldm))] else [], s))
  {
    FltCountFits(ctx.vldm);
    ExecOne(VldmS(FltCount(ctx.vldm), FltStart(ctx.vldm)), s);
    PopFlt(FltCount(ctx.vldm), FltStart(ctx.vldm), s);
    hide ExecAll, Exec, FltCount, FltStart, WordAt, At;
  }

  lemma GprUntouched(ctx: EmitContext, s: Cpu)
    requires WfContext(ctx)
    ensures Untouched(s, ExecAll(if ctx.ldm != {} then [Ldm(ctx.ldm)] else [], s))
  {
    ExecOne(Ldm(ctx.ldm), s);
    LdmMask(ctx);
    PopGpr(ctx.ldm, s);
    hide ExecAll, Exec, WordAt, At, Listed;
  }

  lemma ReturnUntouched(ctx: EmitContext, s: Cpu)
    ensures Untouched(s, ExecAll(if PC !in ctx.ldm then [BxLr] else [], s))
  {
    ExecOne(BxLr, s);
    hide ExecAll;
  }

  lemma EpilogUntouched(ctx: EmitContext, s2: Cpu)
    requires WfContext(ctx)
    ensures Untouched(s2, ExecAll(Epilog(ctx), s2))
  {
    hide *;
    var a := Moves(Chunks(ctx.stkSize), true);
    var b := if ctx.vldm != {} then [VldmS(FltCount(ctx.vldm), FltStart(ctx.vldm))] else [];
    var c := if ctx.ldm != {} then [Ldm(ctx.ldm)] else [];
    var d := if PC !in ctx.ldm then [BxLr] else [];
    var ta := ExecAll(a, s2);
    var tb := ExecAll(b, ta);
    var tc := ExecAll(c, tb);
    EpilogIs(ctx);
    ExecBoth(a, b, s2);
    ExecBoth(a + b, c, s2);
    ExecBoth(a + b + c, d, s2);
    MovesUntouched(Chunks(ctx.stkSize), true, s2);
    FltUntouched(ctx, ta);
    UntouchedTwice(s2, ta, tb);
    GprUntouched(ctx, tb);
    UntouchedTwice(s2, tb, tc);
    ReturnUntouched(ctx, tc);
    UntouchedTwice(s2, tc, ExecAll(d, tc));
  }

  // -- the prolog writes the saved words and nothing else

  /** The address of the n-th word below p. */
  function WordBelow(p: int, n: nat): int { Wrap(p - 4 * (n + 1)) }

  /** The two memories are the same but for the first n words below p. */
  ghost predicate SameButBelow(mem: map<int, int>, mem': map<int, int>, p: int, n: nat) {
    forall x :: (forall j: nat :: j < n ==> Wrap(x) != WordBelow(p, j)) ==> WordAt(mem', x) == WordAt(mem, x)
  }

  lemma {:induction false} StoredElsewhere(mem: map<int, int>, a: int, regs: File, list: seq<nat>, x: int)
    requires forall j: nat :: j < |list| ==> Wrap(x) != Wrap(a + 4 * j)
    ensures WordAt(StoreAll(mem, a, regs, list), x) == WordAt(mem, x)
  {
    if list != [] {
      var n: nat := |list| - 1;
      assert Wrap(x) != Wrap(a + 4 * n);
      StoredElsewhere(mem, a, regs, list[..n], x);
      hide Wrap, At;
    }
  }

  lemma PushWritesBelow(s: Cpu, regs: File, list: seq<nat>)
    ensures SameButBelow(s.mem, AfterPush(s, regs, list).mem, At(s.gpr, SP), |list|)
  {
    var p, a := At(s.gpr, SP), Wrap(At(s.gpr, SP) - 4 * |list|);
    var mem' := AfterPush(s, regs, list).mem;
    forall x | (forall j: nat :: j < |list| ==> Wrap(x) != WordBelow(p, j)) ensures WordAt(mem', x) == WordAt(s.mem, x) {
      forall j: nat | j < |list| ensures Wrap(x) != Wrap(a + 4 * j) {
        assert Wrap(x) != WordBelow(p, |list| - j - 1);
        WrapAdd(p - 4 * |list|, 4 * j);
        hide Wrap;
      }
      StoredElsewhere(s.mem, a, regs, list, x);
      hide Wrap, WordAt, StoreAll;
    }
  }

  lemma NothingBelow(s: Cpu)
    ensures SameButBelow(s.mem, s.mem, At(s.gpr, SP), 0)
  {
  }

  /** First m words below p, then n words below q, which is where the first ones end. */
  lemma BelowTwice(mem: map<int, int>, mem': map<int, int>, mem'': map<int, int>, p: int, q: int, m: nat, n: nat)
    requires SameButBelow(mem, mem', p, m) && SameButBelow(mem', mem'', q, n) && q == Wrap(p - 4 * m)
    ensures SameButBelow(mem, mem'', p, m + n)
  {
    hide WordBelow, Wrap, WordAt;
    forall x | (forall j: nat :: j < m + n ==> Wrap(x) != WordBelow(p, j)) ensures WordAt(mem'', x) == WordAt(mem, x) {
      assert forall j: nat :: j < m ==> Wrap(x) != WordBelow(p, j);
      forall j: nat | j < n ensures Wrap(x) != WordBelow(q, j) {
        FurtherBelow(p, q, m, j);
        assert Wrap(x) != WordBelow(p, m + j);
      }
    }
  }

  lemma FurtherBelow(p: int, q: int, m: nat, j: nat)
    requires q == Wrap(p - 4 * m)
    ensures WordBelow(q, j) == WordBelow(p, m + j)
  {
    WrapAdd(p - 4 * m, 0 - 4 * (j + 1));
    hide Wrap;
  }

  lemma PushedGprBelow(mask: set<nat>, s: Cpu)
    ensures SameButBelow(s.mem, ExecAll(if mask != {} then [Stm(mask)] else [], s).mem, At(s.gpr, SP), |Listed(mask, 16)|)
  {
    hide *;
    ExecOne(Stm(mask), s);
    StmPushes(mask, 0, 0, s);
    NothingListed(16);
    NothingBelow(s);
    PushWritesBelow(s, s.gpr, Listed(mask, 16));
  }

  lemma PushedFltBelow(mask: set<nat>, s: Cpu)
    requires forall r :: r in mask ==> 16 <= r < 32
    ensures 0 <= FltCount(mask) && SameButBelow(s.mem,
      ExecAll(if mask != {} then [VstmS(FltCount(mask), FltStart(mask))] else [], s).mem, At(s.gpr, SP), FltCount(mask))
  {
    hide *;
    FltCountFits(mask);
    NoFlt(mask);
    var count, start := FltCount(mask), FltStart(mask);
    ExecOne(VstmS(count, start), s);
    StmPushes({}, count, start, s);
    NothingBelow(s);
    PushWritesBelow(s, s.flt, Range(start, count));
  }

  lemma PrologWrites(ctx: EmitContext, s0: Cpu)
    requires WfContext(ctx) && SpFits(s0)
    ensures SameButBelow(s0.mem, ExecAll(Prolog(ctx), s0).mem, At(s0.gpr, SP), SavedWords(ctx))
  {
    hide *;
    ContextMasks(ctx);
    var a := if ctx.stm != {} then [Stm(ctx.stm)] else [];
    var b := if ctx.vstm != {} then [VstmS(FltCount(ctx.vstm), FltStart(ctx.vstm))] else [];
    var c := Moves(Chunks(ctx.stkSize), false);
    PrologIs(ctx);
    var t1 := ExecAll(a, s0);
    var t2 := ExecAll(b, t1);
    PushGpr(ctx.stm, s0);
    PushedSpIs(s0, t1, s0.gpr, Listed(ctx.stm, 16));
    PushedGprBelow(ctx.stm, s0);
    PushedFltBelow(ctx.vstm, t1);
    BelowTwice(s0.mem, t1.mem, t2.mem, At(s0.gpr, SP), At(t1.gpr, SP), |Listed(ctx.stm, 16)|, FltCount(ctx.vstm));
    ExecBoth(a, b, s0);
    ExecBoth(a + b, c, s0);
    MovesKeepMem(Chunks(ctx.stkSize), t2);
    SavedWordsIs(ctx);
  }

  lemma PushedSpIs(s: Cpu, s': Cpu, regs: File, list: seq<nat>)
    requires Pushed(s, s', regs, list)
    ensures At(s'.gpr, SP) == Wrap(At(s.gpr, SP) - 4 * |list|)
  {
    hide WordPushed, At, Wrap;
  }

  lemma MovesKeepMem(chunks: seq<nat>, s: Cpu)
    ensures ExecAll(Moves(chunks, false), s).mem == s.mem
  {
    MovesMove(chunks, false, s);
    hide ExecAll, Moves, Delta, At;
  }

  // -- what the two pieces of code are for

  /** Wherever it starts: the saved registers lie in the words right below the old stack pointer, the
      stack pointer went down by these words and the frame, and nothing else changed. */
  ghost predicate EntersFrame(ctx: EmitContext, out: seq<A32>)
    requires WfContext(ctx)
  {
    forall s0: Cpu :: SpFits(s0) ==>
      Framed(ctx, s0, ExecAll(out, s0)) && SameButBelow(s0.mem, ExecAll(out, s0).mem, At(s0.gpr, SP), SavedWords(ctx))
  }

  /** Whatever a function did in its frame, as long as it left alone what it must: everything of the
      caller's is back, execution goes on where lr pointed, and memory and results stay. */
  ghost predicate LeavesFrame(ctx: EmitContext, out: seq<A32>)
    requires WfContext(ctx)
  {
    forall s0: Cpu, s1: Cpu, s2: Cpu :: SpFits(s0) && Framed(ctx, s0, s1) && BodyKeeps(ctx, s1, s2) ==>
      Restored(s0, ExecAll(out, s2)) && Untouched(s2, ExecAll(out, s2))
  }

  /** The hardware can encode the immediates. */
  ghost predicate ImmediatesFit(out: seq<A32>) {
    forall i :: i in out ==> (i.SubImm? ==> Encodable(i.imm)) && (i.AddImm? ==> Encodable(i.imm))
  }

  lemma PrologEnters(ctx: EmitContext)
    requires WfContext(ctx)
    ensures EntersFrame(ctx, Prolog(ctx))
  {
    forall s0: Cpu | SpFits(s0)
      ensures Framed(ctx, s0, ExecAll(Prolog(ctx), s0))
      ensures SameButBelow(s0.mem, ExecAll(Prolog(ctx), s0).mem, At(s0.gpr, SP), SavedWords(ctx))
    {
      PrologFrames(ctx, s0);
      PrologWrites(ctx, s0);
      hide *;
    }
    hide WfContext, SpFits, Framed, ExecAll, Prolog, SameButBelow, SavedWords, At;
  }

  lemma EpilogLeaves(ctx: EmitContext)
    requires WfContext(ctx)
    ensures LeavesFrame(ctx, Epilog(ctx))
  {
    forall s0: Cpu, s1: Cpu, s2: Cpu | SpFits(s0) && Framed(ctx, s0, s1) && BodyKeeps(ctx, s1, s2)
      ensures Restored(s0, ExecAll(Epilog(ctx), s2)) && Untouched(s2, ExecAll(Epilog(ctx), s2))
    {
      EpilogRestores(ctx, s0, s1, s2);
      EpilogUntouched(ctx, s2);
      hide *;
    }
    hide WfContext, SpFits, Framed, BodyKeeps, Restored, ExecAll, Epilog, Untouched;
  }

  lemma MovesFit(size: nat, up: bool)
    requires size < WORD_SPACE
    ensures |Moves(Chunks(size), up)| <= 4 && ImmediatesFit(Moves(Chunks(size), up))
  {
    FrameChunks(size);
    hide Chunks, Encodable;
  }

  lemma PrologFits(ctx: EmitContext)
    requires ctx.stkSize < WORD_SPACE
    ensures |Prolog(ctx)| <= 6 && ImmediatesFit(Prolog(ctx))
  {
    MovesFit(ctx.stkSize, false);
    hide Moves, Chunks, Encodable, FltCount, FltStart;
  }

  lemma EpilogFits(ctx: EmitContext)
    requires ctx.stkSize < WORD_SPACE
    ensures |Epilog(ctx)| <= 7 && ImmediatesFit(Epilog(ctx))
  {
    MovesFit(ctx.stkSize, true);
    hide Moves, Chunks, Encodable, FltCount, FltStart;
  }

  lemma NextMove(size: nat, up: bool)
    ensures size == 0 ==> Moves(Chunks(size), up) == []
    ensures size > 0 ==> 0 < HighByte(size) <= size
    ensures var h := HighByte(size);
      size > 0 ==> Moves(Chunks(size), up) == [if up then AddImm(h) else SubImm(h)] + Moves(Chunks(size - h), up)
  {
    if size > 0 { HighByteShrinks(size); }
    hide HighByte;
  }

  method EmitFunProlog(ctx: EmitContext) returns (out: seq<A32>)
    ensures out == Prolog(ctx) && (WfContext(ctx) ==> EntersFrame(ctx, out))
    ensures ctx.stkSize < WORD_SPACE ==> |out| <= 6 && ImmediatesFit(out)
  {
    hide *;
    if WfContext(ctx) { PrologEnters(ctx); }
    if ctx.stkSize < WORD_SPACE { PrologFits(ctx); }
    PrologIs(ctx);
    out := [];
    if ctx.stm != {} { out := out + [Stm(ctx.stm)]; }
    if ctx.vstm != {} { out := out + [VstmS(FltCount(ctx.vstm), FltStart(ctx.vstm))]; }
    ghost var all := Prolog(ctx);
    var size := ctx.stkSize;
    while size > 0
      invariant out + Moves(Chunks(size), false) == all
    {
      NextMove(size, false);
      var high := ComputeHighByte(size);
      ghost var rest := Moves(Chunks(size - high), false);
      assert out + ([SubImm(high)] + rest) == (out + [SubImm(high)]) + rest;
      out := out + [SubImm(high)];
      size := size - high;
    }
    NextMove(0, false);
    assert out + [] == out;
  }

  method EmitFunEpilog(ctx: EmitContext) returns (out: seq<A32>)
    ensures out == Epilog(ctx) && (WfContext(ctx) ==> LeavesFrame(ctx, out))
    ensures ctx.stkSize < WORD_SPACE ==> |out| <= 7 && ImmediatesFit(out)
  {
    hide *;
    if WfContext(ctx) { EpilogLeaves(ctx); }
    if ctx.stkSize < WORD_SPACE { EpilogFits(ctx); }
    EpilogIs(ctx);
    out := [];
    ghost var moves := Moves(Chunks(ctx.stkSize), true);
    assert [] + moves == moves;
    var size := ctx.stkSize;
    while size > 0
      invariant out + Moves(Chunks(size), true) == moves
    {
      NextMove(size, true);
      var high := ComputeHighByte(size);
      ghost var rest := Moves(Chunks(size - high), true);
      assert out + ([AddImm(high)] + rest) == (out + [AddImm(high)]) + rest;
      out := out + [AddImm(high)];
      size := size - high;
    }
    NextMove(0, true);
    assert out + [] == out == moves;
    if ctx.vldm != {} { out := out + [VldmS(FltCount(ctx.vldm), FltStart(ctx.vldm))]; }
    if ctx.ldm != {} { out := out + [Ldm(ctx.ldm)]; }
    if PC !in ctx.ldm { out := out + [BxLr]; }
  }

  /** Whatever a function does in between, as long as it leaves alone what it must, its epilog undoes
      its prolog: everything of the caller's is back, and execution returns to where lr pointed. */
  lemma EpilogUndoesProlog(ctx: EmitContext, s0: Cpu, s2: Cpu)
    requires WfContext(ctx) && SpFits(s0) && BodyKeeps(ctx, ExecAll(Prolog(ctx), s0), s2)
    ensures Restored(s0, ExecAll(Epilog(ctx), s2)) && Untouched(s2, ExecAll(Epilog(ctx), s2))
  {
    hide *;
    PrologFrames(ctx, s0);
    EpilogRestores(ctx, s0, ExecAll(Prolog(ctx), s0), s2);
    EpilogUntouched(ctx, s2);
  }

  lemma EpilogRestores(ctx: EmitContext, s0: Cpu, s1: Cpu, s2: Cpu)
    requires WfContext(ctx) && SpFits(s0) && Framed(ctx, s0, s1) && BodyKeeps(ctx, s1, s2)
    ensures Restored(s0, ExecAll(Epilog(ctx), s2))
  {
    hide *;
    var a := Moves(Chunks(ctx.stkSize), true);
    var b := if ctx.vldm != {} then [VldmS(FltCount(ctx.vldm), FltStart(ctx.vldm))] else [];
    var c := if ctx.ldm != {} then [Ldm(ctx.ldm)] else [];
    var d := if PC !in ctx.ldm then [BxLr] else [];
    EpilogIs(ctx);
    MovedBack(ctx, s0, s1, s2);
    BodyParts(ctx, s0, s1, s2);
    FltComesBack(ctx, s0, s2, ExecAll(a, s2));
    GprComesBack(ctx, s0, s2, ExecAll(b, ExecAll(a, s2)));
    Returns(ctx, s0, ExecAll(c, ExecAll(b, ExecAll(a, s2))));
    ExecBoth(a, b, s2);
    ExecBoth(a + b, c, s2);
    ExecBoth(a + b + c, d, s2);
  }

  lemma EpilogIs(ctx: EmitContext)
    ensures Epilog(ctx) == Moves(Chunks(ctx.stkSize), true) +
                           (if ctx.vldm != {} then [VldmS(FltCount(ctx.vldm), FltStart(ctx.vldm))] else []) +
                           (if ctx.ldm != {} then [Ldm(ctx.ldm)] else []) + (if PC !in ctx.ldm then [BxLr] else [])
  {
    hide Moves, Chunks, FltCount, FltStart;
  }

  // ---------------------------------------------------------------- what to save, and how much room

  /** The core registers, and the single precision registers, behind the bits of an allocation mask. */
  function GprNos(mask: set<Bit>): set<nat> { set b | b in mask && b.GprBit? :: b.no }

  function FltNos(mask: set<Bit>): set<nat> { set b | b in mask && b.FltBit? :: b.no }

  function BitsOf(used: set<CpuReg>): set<Bit> { set reg, b | reg in used && b in AllocMask(reg) :: b }

  const GPR_CALLEE_SAVE: set<nat> := {6, 7, 8, 9, 10, 11}
  const FLT_CALLEE_SAVE: set<nat> := set n | 16 <= n < 32

  /** The room for `frame` bytes such that it fills up a multiple of 16 bytes together with n saved words. */
  function RoundedUp(frame: nat, n: nat): (size: nat)
    ensures frame <= size < frame + 16 && Aligned(size + 4 * n)
  {
    (frame + 4 * n + 15) / 16 * 16 - 4 * n
  }

  predicate Aligned(bytes: int) { bytes % 16 == 0 }

  /** The context of a function with the machine registers `used` in its code and stack slots of
      `frame` bytes: every callee-saved register in use gets saved, and nothing else but lr. */
  ghost predicate IsContext(ctx: EmitContext, used: set<CpuReg>, calls: bool, frame: nat) {
    && WfContext(ctx)
    && (forall n: nat :: n in ctx.stm <==>
          (6 <= n < 12 && GprBit(n) in BitsOf(used)) || (n == LR && (calls || CpuReg(Gpr, LR) in used)))
    && (forall n: nat :: n in ctx.vstm <==> 16 <= n < 32 && FltBit(n) in BitsOf(used))
    && ctx.stkSize == RoundedUp(frame, |ctx.ldm| + |ctx.vldm|)
  }

  method FunComputeEmitContext(used: set<CpuReg>, calls: bool, frame: nat) returns (ctx: EmitContext)
    ensures IsContext(ctx, used, calls, frame)
    ensures frame <= ctx.stkSize < frame + 16 && Aligned(ctx.stkSize + 4 * (|ctx.ldm| + |ctx.vldm|))
  {
    hide *;
    var bits := BitsOf(used);
    var mustSaveLink := calls || LR in GprNos(bits);
    var gpr, flt := GprNos(bits) * GPR_CALLEE_SAVE, FltNos(bits) * FLT_CALLEE_SAVE;
    UsedIffBit(used, bits);
    var stm, ldm := gpr, gpr;
    if mustSaveLink { stm, ldm := stm + {LR}, ldm + {PC}; }
    assert stm == gpr + (if mustSaveLink then {LR} else {}) && ldm == gpr + (if mustSaveLink then {PC} else {});
    var numSaved := |ldm| + |flt|;
    ctx := EmitContext(stm, ldm, flt, flt, RoundedUp(frame, numSaved));
    ContextFits(ctx, used, calls, frame);
  }

  lemma ContextFits(ctx: EmitContext, used: set<CpuReg>, calls: bool, frame: nat)
    requires var link := calls || CpuReg(Gpr, LR) in used;
      && ctx.stm == GprNos(BitsOf(used)) * GPR_CALLEE_SAVE + (if link then {LR} else {})
      && ctx.ldm == GprNos(BitsOf(used)) * GPR_CALLEE_SAVE + (if link then {PC} else {})
    requires ctx.vstm == ctx.vldm == FltNos(BitsOf(used)) * FLT_CALLEE_SAVE && ctx.stkSize == RoundedUp(frame, |ctx.ldm| + |ctx.vldm|)
    ensures IsContext(ctx, used, calls, frame)
  {
    hide *;
    var bits, link := BitsOf(used), calls || CpuReg(Gpr, LR) in used;
    CalleeSaveIs(GprNos(bits), FltNos(bits), link);
    NosAre(bits);
    FitsTogether(ctx, used, calls, frame, GprNos(bits), link);
  }

  lemma CalleeSaveIs(gpr: set<nat>, flt: set<nat>, link: bool)
    ensures var saved := gpr * GPR_CALLEE_SAVE; var stm := saved + (if link then {LR} else {});
      && (forall n :: n in stm <==> (n in gpr && 6 <= n < 12) || (n == LR && link))
      && saved + (if link then {PC} else {}) == (if LR in stm then stm - {LR} + {PC} else stm)
    ensures forall n :: n in flt * FLT_CALLEE_SAVE <==> n in flt && 16 <= n < 32
  {
    assert LR !in gpr * GPR_CALLEE_SAVE;
  }

  lemma FitsTogether(ctx: EmitContext, used: set<CpuReg>, calls: bool, frame: nat, gpr: set<nat>, link: bool)
    requires (forall n :: n in ctx.stm <==> (n in gpr && 6 <= n < 12) || (n == LR && link)) && (link <==> calls || CpuReg(Gpr, LR) in used)
    requires ctx.ldm == (if LR in ctx.stm then ctx.stm - {LR} + {PC} else ctx.stm)
    requires (forall n :: n in gpr <==> GprBit(n) in BitsOf(used))
    requires (forall n :: n in ctx.vstm <==> FltBit(n) in BitsOf(used) && 16 <= n < 32) && ctx.vldm == ctx.vstm
    requires ctx.stkSize == RoundedUp(frame, |ctx.ldm| + |ctx.vldm|)
    ensures IsContext(ctx, used, calls, frame)
  {
    hide BitsOf, RoundedUp;
  }

  lemma NosAre(mask: set<Bit>)
    ensures forall n :: n in GprNos(mask) <==> GprBit(n) in mask
    ensures forall n :: n in FltNos(mask) <==> FltBit(n) in mask
  {
    forall n ensures n in GprNos(mask) <==> GprBit(n) in mask { if GprBit(n) in mask { assert GprBit(n).no == n; } }
    forall n ensures n in FltNos(mask) <==> FltBit(n) in mask { if FltBit(n) in mask { assert FltBit(n).no == n; } }
  }

  lemma UsedIffBit(used: set<CpuReg>, bits: set<Bit>)
    requires bits == BitsOf(used)
    ensures LR in GprNos(bits) <==> CpuReg(Gpr, LR) in used
  {
    if CpuReg(Gpr, LR) in used {
      assert GprBit(LR) in AllocMask(CpuReg(Gpr, LR));
      assert GprBit(LR) in bits;
    }
    if LR in GprNos(bits) {
      assert GprBit(LR) in bits;
      var reg :| reg in used && GprBit(LR) in AllocMask(reg);
      assert reg == CpuReg(Gpr, LR);
    }
  }

  /** Registers that are stored without being used, since `vstm` stores whole stretches. */
  function Gaps(ctx: EmitContext): int { FltCount(ctx.vstm) - |ctx.vstm| }

  /** The stack pointer stays a multiple of 16 exactly if the gaps take up a multiple of 16 bytes. */
  lemma StaysAligned(ctx: EmitContext, s0: Cpu)
    requires WfContext(ctx) && SpFits(s0) && Aligned(ctx.stkSize + 4 * (|ctx.ldm| + |ctx.vldm|))
    ensures At(ExecAll(Prolog(ctx), s0).gpr, SP) % 16 == At(s0.gpr, SP) % 16 <==> Gaps(ctx) % 4 == 0
  {
    hide *;
    PrologFrames(ctx, s0);
    FramedSp(ctx, s0, ExecAll(Prolog(ctx), s0));
    SavedWordsIs(ctx);
    StmSize(ctx);
    ListedSize(ctx.stm, 16);
    AlignedIff(At(s0.gpr, SP), ctx.stkSize, |ctx.ldm|, |ctx.vldm|, FltCount(ctx.vstm));
    GapsIs(ctx);
  }

  lemma TwoBits(n: nat)
    ensures FltBit(n) in BitsOf({CpuReg(Flt, 16), CpuReg(Flt, 18)}) <==> n == 16 || n == 18
  {
    var used := {CpuReg(Flt, 16), CpuReg(Flt, 18)};
    assert FltBit(16) in AllocMask(CpuReg(Flt, 16)) && FltBit(18) in AllocMask(CpuReg(Flt, 18));
    if FltBit(n) in BitsOf(used) {
      var reg :| reg in used && FltBit(n) in AllocMask(reg);
    }
  }

  lemma SavedInContext(ctx: EmitContext, frame: nat)
    requires IsContext(ctx, {CpuReg(Flt, 16), CpuReg(Flt, 18)}, false, frame)
    ensures ctx.vstm == {16, 18}
  {
    forall n: nat ensures FltBit(n) in BitsOf({CpuReg(Flt, 16), CpuReg(Flt, 18)}) <==> n == 16 || n == 18 { TwoBits(n); }
    hide BitsOf;
  }

  lemma TwoWithGap(regs: set<nat>)
    requires regs == {16, 18}
    ensures |regs| == 2 && FltStart(regs) == 16 && FltCount(regs) == 3
  {
    SpanOf(regs);
  }

  /** A function that uses s16 and s18 and nothing else that is callee-saved: vstm stores s17 as well,
      four bytes more than the frame was computed with, and sp is never a multiple of 16 again. */
  lemma GapsMisalign(ctx: EmitContext, frame: nat, s0: Cpu)
    requires IsContext(ctx, {CpuReg(Flt, 16), CpuReg(Flt, 18)}, false, frame) && SpFits(s0) && At(s0.gpr, SP) % 16 == 0
    ensures FltStart(ctx.vstm) == 16 && FltCount(ctx.vstm) == 3 && ctx.vstm == {16, 18}
    ensures At(ExecAll(Prolog(ctx), s0).gpr, SP) % 16 != 0
  {
    hide *;
    SavedInContext(ctx, frame);
    TwoWithGap(ctx.vstm);
    GapsIs(ctx);
    ContextAligned(ctx, {CpuReg(Flt, 16), CpuReg(Flt, 18)}, false, frame);
    StaysAligned(ctx, s0);
  }

  lemma SpanOf(mask: set<nat>)
    requires mask == {16, 18}
    ensures FltStart(mask) == 16 && FltCount(mask) == 3
  {
    assert 16 in mask && 0 <= 16 < 32;
    var e := EndOf(mask, 32);
    assert e > 18 && e - 1 in mask;
    var m := MinOf(mask, 0);
    assert m <= 16;
  }

  lemma ContextAligned(ctx: EmitContext, used: set<CpuReg>, calls: bool, frame: nat)
    requires IsContext(ctx, used, calls, frame)
    ensures WfContext(ctx) && Aligned(ctx.stkSize + 4 * (|ctx.ldm| + |ctx.vldm|))
  {
    hide RoundedUp, WfContext;
  }

  lemma GapsIs(ctx: EmitContext)
    ensures Gaps(ctx) == FltCount(ctx.vstm) - |ctx.vstm|
  {
  }

  lemma FramedSp(ctx: EmitContext, s0: Cpu, s1: Cpu)
    requires WfContext(ctx) && Framed(ctx, s0, s1)
    ensures At(s1.gpr, SP) == Wrap(At(s0.gpr, SP) - 4 * SavedWords(ctx) - ctx.stkSize)
  {
  }

  lemma {:induction false} ListedSize(mask: set<nat>, k: nat)
    requires forall r :: r in mask ==> r < k
    ensures |Listed(mask, k)| == |mask|
  {
    if k > 0 {
      var less := mask - {k - 1};
      SameBelow(mask, less, k - 1);
      ListedSize(less, k - 1);
    } else {
      assert mask == {};
    }
  }

  lemma StmSize(ctx: EmitContext)
    requires WfContext(ctx)
    ensures |ctx.stm| == |ctx.ldm| && (forall r :: r in ctx.stm ==> r < 16) && ctx.vldm == ctx.vstm
  {
    if LR in ctx.stm {
      assert |ctx.stm - {LR}| == |ctx.stm| - 1;
      assert PC !in ctx.stm - {LR};
    }
  }

  lemma AlignedIff(sp: int, size: nat, core: nat, flt: nat, count: int)
    requires Aligned(size + 4 * (core + flt))
    ensures Wrap(sp - 4 * (core + count) - size) % 16 == sp % 16 <==> (count - flt) % 4 == 0
  {
    var q := (size + 4 * (core + flt)) / 16;
    WrapMod(sp - 4 * (core + count) - size);
    assert sp - 4 * (core + count) - size == sp - 16 * q - 4 * (count - flt);
    hide Wrap;
    DownBy(sp, q, count - flt);
  }

  lemma WrapMod(x: int)
    ensures Wrap(x) % 16 == x % 16
  {
    var q, r := x / WORD_SPACE, x % WORD_SPACE;
    var a, b := r / 16, r % 16;
    assert x == 16 * (0x1000_0000 * q + a) + b;
  }

  lemma DownBy(sp: int, q: int, g: int)
    ensures (sp - 16 * q - 4 * g) % 16 == sp % 16 <==> g % 4 == 0
  {
    var h, r := g / 4, g % 4;
    assert sp - 16 * q - 4 * g == sp - 16 * (q + h) - 4 * r;
  }

  // ---------------------------------------------------------------- stack slots

  datatype Stk = Stk(alignment: nat, count: nat)

  ghost predicate IsMultiple(x: nat, a: nat) { exists q: nat :: x == q * a }

  /** Each slot starts at its alignment, at the first such place after the slots before it. */
  ghost predicate SlotsPlaced(stks: seq<Stk>, slots: seq<nat>, end: nat) {
    && |slots| <= |stks|
    && (forall k :: 0 <= k < |slots| ==> stks[k].alignment > 0 && IsMultiple(slots[k], stks[k].alignment))
    && (forall j, k :: 0 <= j < k < |slots| ==> slots[j] + stks[j].count <= slots[k])
    && (forall k :: 0 <= k < |slots| ==> slots[k] + stks[k].count <= end)
    && (forall k :: 0 < k < |slots| ==> slots[k] < slots[k - 1] + stks[k - 1].count + stks[k].alignment)
    && (slots != [] ==> slots[0] == 0 && end == slots[|slots| - 1] + stks[|slots| - 1].count)
    && (slots == [] ==> end == 0)
  }

  lemma RoundUpTo(x: nat, a: nat)
    requires a > 0
    ensures var r := (x + a - 1) / a * a; x <= r < x + a && IsMultiple(r, a) && (x == 0 ==> r == 0)
  {
    var y := x + a - 1;
    assert y == y / a * a + y % a;
    assert IsMultiple(y / a * a, a);
    if x == 0 { BelowDivisor(y, a); }
  }

  /** The slots of a function in the order of their names. */
  method FinalizeStackSlots(stks: seq<Stk>) returns (slots: seq<nat>, size: nat)
    requires forall k :: 0 <= k < |stks| ==> stks[k].alignment > 0
    ensures |slots| == |stks| && SlotsPlaced(stks, slots, size)
  {
    slots, size := [], 0;
    for k := 0 to |stks|
      invariant |slots| == k && SlotsPlaced(stks, slots, size)
    {
      var at := size + stks[k].alignment - 1;
      RoundUpTo(size, stks[k].alignment);
      at := at / stks[k].alignment * stks[k].alignment;
      PlaceOne(stks, slots, size, at);
      slots, size := slots + [at], at + stks[k].count;
      hide SlotsPlaced, IsMultiple;
    }
  }

  lemma PlaceOne(stks: seq<Stk>, slots: seq<nat>, end: nat, at: nat)
    requires SlotsPlaced(stks, slots, end) && |slots| < |stks| && stks[|slots|].alignment > 0
    requires end <= at < end + stks[|slots|].alignment && IsMultiple(at, stks[|slots|].alignment) && (end == 0 && slots == [] ==> at == 0)
    ensures SlotsPlaced(stks, slots + [at], at + stks[|slots|].count)
  {
    hide IsMultiple;
  }

  function WriteBytes(mem: map<int, int>, a: int, bytes: seq<int>): map<int, int> {
    if bytes == [] then mem
    else
      var n := |bytes| - 1;
      WriteBytes(mem, a, bytes[..n])[a + n := bytes[n]]
  }

  function ReadByte(mem: map<int, int>, a: int): int { if a in mem then mem[a] else 0 }

  lemma {:induction false} WrittenByte(mem: map<int, int>, a: int, bytes: seq<int>, x: int)
    ensures ReadByte(WriteBytes(mem, a, bytes), x) == if a <= x < a + |bytes| then bytes[x - a] else ReadByte(mem, x)
  {
    if bytes != [] { WrittenByte(mem, a, bytes[..|bytes| - 1], x); }
  }

  /** A slot reads back what was written to it, and no other slot notices. */
  lemma SlotsAreCells(stks: seq<Stk>, slots: seq<nat>, end: nat, mem: map<int, int>, sp: int, j: nat, k: nat, bytes: seq<int>, i: nat)
    requires SlotsPlaced(stks, slots, end) && j < |slots| && k < |slots| && |bytes| == stks[j].count && i < stks[k].count
    ensures ReadByte(WriteBytes(mem, sp + slots[j], bytes), sp + slots[k] + i) ==
            if j == k then bytes[i] else ReadByte(mem, sp + slots[k] + i)
  {
    WrittenByte(mem, sp + slots[j], bytes, sp + slots[k] + i);
    hide WriteBytes, ReadByte;
  }
}
