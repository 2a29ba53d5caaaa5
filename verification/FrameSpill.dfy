/** Spill slots as bytes of the stack frame. Each slot is where `Frame.FinalizeStackSlots` put it, in
    the memory that all loads and stores go to. As slots do not overlap, a function with its registers
    in the frame runs like the original, as long as the original keeps to the memory outside of the
    slots (`SpilledToFrame`). */
module FrameSpill {
  import opened IR
  import opened Liveness
  import opened MachineCode
  import opened Spill
  import opened FunSpill
  import opened Frame
  import BlockAlloc
  import DeadCode

  // ---------------------------------------------------------------- values as bytes

  function Pow256(n: nat): (p: int)
    ensures p > 0
  {
    if n == 0 then 1 else 256 * Pow256(n - 1)
  }

  /** The values of a kind of register. */
  datatype Range = Range(width: nat, signed: bool) {
    predicate Has(v: int) {
      if signed then -Pow256(width) <= 2 * v < Pow256(width) else 0 <= v < Pow256(width)
    }
  }

  /** Little-endian, two's complement. */
  function Bytes(n: nat, v: int): (bytes: seq<int>)
    ensures |bytes| == n
  {
    if n == 0 then [] else [v % 256] + Bytes(n - 1, v / 256)
  }

  function Unsigned(bytes: seq<int>): int {
    if bytes == [] then 0 else bytes[0] + 256 * Unsigned(bytes[1..])
  }

  function Decode(range: Range, bytes: seq<int>): int {
    var v := Unsigned(bytes);
    if range.signed && 2 * v >= Pow256(range.width) then v - Pow256(range.width) else v
  }

  lemma {:induction false} UnsignedOfBytes(n: nat, v: int)
    requires -Pow256(n) <= v < Pow256(n)
    ensures Unsigned(Bytes(n, v)) == if v < 0 then v + Pow256(n) else v
  {
    if n > 0 {
      assert -Pow256(n - 1) <= v / 256 < Pow256(n - 1);
      UnsignedOfBytes(n - 1, v / 256);
      assert Bytes(n, v)[1..] == Bytes(n - 1, v / 256);
    }
  }

  lemma DecodeOfBytes(range: Range, v: int)
    requires range.Has(v)
    ensures Decode(range, Bytes(range.width, v)) == v
  {
    UnsignedOfBytes(range.width, v);
    hide Unsigned, Bytes, Pow256;
  }

  function ReadBytes(mem: Memory, a: int, n: nat): (bytes: seq<int>)
    ensures |bytes| == n && forall j :: 0 <= j < n ==> bytes[j] == ReadByte(mem, a + j)
  {
    seq(n, j requires 0 <= j < n => ReadByte(mem, a + j))
  }

  // ---------------------------------------------------------------- the frame

  /** Slot s stands at position rank[s] when the slots are in order of their names; the frame starts
      at address sp. */
  datatype Layout = Layout(sp: nat, stks: seq<Stk>, slots: seq<nat>, size: nat, rank: map<nat, nat>, signed: set<nat>) {
    function Width(s: nat): nat { if s in rank && rank[s] < |stks| then stks[rank[s]].count else 0 }

    function Addr(s: nat): int { sp + if s in rank && rank[s] < |slots| then slots[rank[s]] else 0 }

    function RangeOf(s: nat): Range { Range(Width(s), s in signed) }

    /** What slot s holds. */
    function Held(mem: Memory, s: nat): int { Decode(RangeOf(s), ReadBytes(mem, Addr(s), Width(s))) }

    /** What placing the slots achieved, for the slots in `frame`. */
    ghost predicate Places(m: Machine, frame: set<nat>) {
      && SlotsPlaced(stks, slots, size) && |slots| == |stks| && sp + size <= m.addrSpace
      && (forall s :: s in frame ==> s in rank && rank[s] < |slots| && Width(s) > 0 && m.stkAddr(s) == Addr(s))
      && (forall s, t :: s in frame && t in frame && s != t ==> rank[s] != rank[t])
    }

    predicate Covers(frame: set<nat>, a: int) { exists s :: s in frame && Addr(s) <= a < Addr(s) + Width(s) }
  }

  /** Same memory but for the spill slots. */
  ghost predicate AgreeOut(l: Layout, frame: set<nat>, mem: Memory, mem': Memory) {
    forall a :: !l.Covers(frame, a) ==> ReadByte(mem, a) == ReadByte(mem', a)
  }

  /** The slots hold in mem' what they hold in mem. */
  ghost predicate Shields(l: Layout, frame: set<nat>, mem: Memory, mem': Memory) {
    forall a :: l.Covers(frame, a) ==> ReadByte(mem', a) == ReadByte(mem, a)
  }

  // -- one slot

  lemma SlotRange(m: Machine, l: Layout, frame: set<nat>, s: nat)
    requires l.Places(m, frame) && s in frame
    ensures 0 <= l.Addr(s) && l.Addr(s) < m.addrSpace && l.Addr(s) + l.Width(s) <= l.sp + l.size
    ensures Address(m, m.stkAddr(s), 0) == l.Addr(s)
  {
    var k := l.rank[s];
    assert l.slots[k] + l.stks[k].count <= l.size;
    BelowDivisor(l.Addr(s), m.addrSpace);
  }

  predicate SameBytes(mem: Memory, mem': Memory, a: int, n: nat) {
    forall x :: a <= x < a + n ==> ReadByte(mem', x) == ReadByte(mem, x)
  }

  lemma SameBytesRead(mem: Memory, mem': Memory, a: int, n: nat)
    requires SameBytes(mem, mem', a, n)
    ensures ReadBytes(mem', a, n) == ReadBytes(mem, a, n)
  {
    hide ReadByte;
    assert forall j :: 0 <= j < n ==> ReadBytes(mem', a, n)[j] == ReadByte(mem', a + j);
  }

  /** A slot reads back what was stored; other slots, and everything outside, do not change. */
  lemma StoredSlot(m: Machine, l: Layout, frame: set<nat>, s: nat, mem: Memory, v: int)
    requires l.Places(m, frame) && s in frame && l.RangeOf(s).Has(v)
    ensures var mem' := WriteBytes(mem, l.Addr(s), Bytes(l.Width(s), v));
      && l.Held(mem', s) == v && (forall t :: t in frame && t != s ==> l.Held(mem', t) == l.Held(mem, t))
      && AgreeOut(l, frame, mem, mem')
  {
    var bytes := Bytes(l.Width(s), v);
    var mem' := WriteBytes(mem, l.Addr(s), bytes);
    OwnSlot(m, l, frame, s, mem, bytes);
    DecodeOfBytes(l.RangeOf(s), v);
    hide ReadBytes, Bytes, WriteBytes, Decode, AgreeOut, Pow256, SlotsPlaced;
    forall t | t in frame && t != s ensures l.Held(mem', t) == l.Held(mem, t) {
      OtherSlot(m, l, frame, s, t, mem, bytes);
    }
    OutsideSlot(l, frame, s, mem, bytes);
  }

  lemma OwnSlot(m: Machine, l: Layout, frame: set<nat>, s: nat, mem: Memory, bytes: seq<int>)
    requires l.Places(m, frame) && s in frame && |bytes| == l.Width(s)
    ensures ReadBytes(WriteBytes(mem, l.Addr(s), bytes), l.Addr(s), l.Width(s)) == bytes
  {
    var mem' := WriteBytes(mem, l.Addr(s), bytes);
    var back := ReadBytes(mem', l.Addr(s), l.Width(s));
    forall j: nat | j < |bytes| ensures back[j] == bytes[j] {
      SlotsAreCells(l.stks, l.slots, l.size, mem, l.sp, l.rank[s], l.rank[s], bytes, j);
      hide ReadByte, WriteBytes, SlotsPlaced;
    }
    hide ReadByte, WriteBytes, SlotsPlaced;
  }

  lemma OtherSlot(m: Machine, l: Layout, frame: set<nat>, s: nat, t: nat, mem: Memory, bytes: seq<int>)
    requires l.Places(m, frame) && s in frame && t in frame && t != s && |bytes| == l.Width(s)
    ensures ReadBytes(WriteBytes(mem, l.Addr(s), bytes), l.Addr(t), l.Width(t)) == ReadBytes(mem, l.Addr(t), l.Width(t))
  {
    var mem' := WriteBytes(mem, l.Addr(s), bytes);
    forall x | l.Addr(t) <= x < l.Addr(t) + l.Width(t) ensures ReadByte(mem', x) == ReadByte(mem, x) {
      SlotsAreCells(l.stks, l.slots, l.size, mem, l.sp, l.rank[s], l.rank[t], bytes, x - l.Addr(t));
      hide ReadByte, WriteBytes, SlotsPlaced;
    }
    hide ReadByte, WriteBytes, SlotsPlaced, ReadBytes;
    SameBytesRead(mem, mem', l.Addr(t), l.Width(t));
  }

  lemma OutsideSlot(l: Layout, frame: set<nat>, s: nat, mem: Memory, bytes: seq<int>)
    requires s in frame && |bytes| == l.Width(s)
    ensures AgreeOut(l, frame, mem, WriteBytes(mem, l.Addr(s), bytes))
  {
    forall a | !l.Covers(frame, a) ensures ReadByte(mem, a) == ReadByte(WriteBytes(mem, l.Addr(s), bytes), a) {
      WrittenByte(mem, l.Addr(s), bytes, a);
      hide ReadByte, WriteBytes;
    }
  }

  lemma ShieldedSlot(l: Layout, frame: set<nat>, s: nat, mem: Memory, mem': Memory)
    requires s in frame && Shields(l, frame, mem, mem')
    ensures l.Held(mem', s) == l.Held(mem, s)
  {
    forall x | l.Addr(s) <= x < l.Addr(s) + l.Width(s) ensures ReadByte(mem', x) == ReadByte(mem, x) {
      assert l.Covers(frame, x);
      hide ReadByte;
    }
    hide ReadByte, ReadBytes, Shields;
    SameBytesRead(mem, mem', l.Addr(s), l.Width(s));
  }

  // ---------------------------------------------------------------- what an access touches

  /** The bytes a load, a store, a bulk operation and a callee may read or write. */
  datatype Reach = Reach(loads: int -> set<int>, stores: int -> set<int>, bulk: (nat, seq<int>) -> set<int>, callee: Trace -> set<int>)

  predicate SameOn(bytes: set<int>, mem: Memory, mem': Memory) { forall a :: a in bytes ==> ReadByte(mem, a) == ReadByte(mem', a) }

  /** Nothing changed but in `bytes`. */
  ghost predicate Confined(bytes: set<int>, mem: Memory, mem': Memory) { forall a :: a !in bytes ==> ReadByte(mem', a) == ReadByte(mem, a) }

  ghost predicate LoadsLocal(m: Machine, reach: Reach) {
    forall mem, mem', a :: SameOn(reach.loads(a), mem, mem') ==> m.load(mem, a) == m.load(mem', a)
  }

  ghost predicate StoresLocal(m: Machine, reach: Reach) {
    && (forall mem, a, v :: Confined(reach.stores(a), mem, m.store(mem, a, v)))
    && (forall mem, mem', a, v :: SameOn(reach.stores(a), mem, mem') ==> SameOn(reach.stores(a), m.store(mem, a, v), m.store(mem', a, v)))
  }

  ghost predicate BulkLocal(m: Machine, reach: Reach) {
    && (forall c, vs, mem :: Confined(reach.bulk(c, vs), mem, m.bulk(c, vs, mem)))
    && (forall c, vs, mem, mem' :: SameOn(reach.bulk(c, vs), mem, mem') ==> SameOn(reach.bulk(c, vs), m.bulk(c, vs, mem), m.bulk(c, vs, mem')))
  }

  ghost predicate CallsLocal(m: Machine, reach: Reach) {
    && (forall tr, mem :: Confined(reach.callee(tr), mem, m.callMem(tr, mem)))
    && (forall tr, mem, mem' :: SameOn(reach.callee(tr), mem, mem') ==> SameOn(reach.callee(tr), m.callMem(tr, mem), m.callMem(tr, mem')))
  }

  /** Memory operations depend on and change no bytes but those they reach. */
  ghost predicate Local(m: Machine, reach: Reach) {
    LoadsLocal(m, reach) && StoresLocal(m, reach) && BulkLocal(m, reach) && CallsLocal(m, reach)
  }

  /** What an instruction touches when its sources are vs. */
  function Touched(m: Machine, reach: Reach, opc: Opcode, vs: seq<int>, trace: Trace): set<int> {
    match opc
    case Ld | LdMem | LdStk => reach.loads(Address(m, Nth(vs, 0), Nth(vs, 1)))
    case St | StMem | StStk => reach.stores(Address(m, Nth(vs, 0), Nth(vs, 1)))
    case Bulk(c) => reach.bulk(c, vs)
    case Call(k) => reach.callee(trace + [EvCall(k, vs)])
    case _ => {}
  }

  predicate Clear(l: Layout, all: set<nat>, bytes: set<int>) { forall a :: a in bytes ==> !l.Covers(all, a) }

  lemma ClearUpdate(l: Layout, all: set<nat>, bytes: set<int>, mem: Memory, mem': Memory, next: Memory, next': Memory)
    requires AgreeOut(l, all, mem, mem') && Clear(l, all, bytes) && Confined(bytes, mem, next) && Confined(bytes, mem', next')
    requires SameOn(bytes, mem, mem') ==> SameOn(bytes, next, next')
    ensures AgreeOut(l, all, next, next') && Shields(l, all, mem', next')
  {
    hide ReadByte;
    forall a | !l.Covers(all, a) ensures ReadByte(next, a) == ReadByte(next', a) {
      if a !in bytes { assert ReadByte(next, a) == ReadByte(mem, a) && ReadByte(next', a) == ReadByte(mem', a); }
    }
  }

  lemma NothingChanges(l: Layout, all: set<nat>, mem: Memory)
    ensures Shields(l, all, mem, mem)
  {
  }

  lemma LoadClear(m: Machine, reach: Reach, l: Layout, all: set<nat>, a: int, mem: Memory, mem': Memory)
    requires LoadsLocal(m, reach) && AgreeOut(l, all, mem, mem') && Clear(l, all, reach.loads(a))
    ensures m.load(mem, a) == m.load(mem', a)
  {
    hide ReadByte;
    assert SameOn(reach.loads(a), mem, mem');
  }

  /** Away from the slots an instruction does the same whatever the slots hold, and leaves them alone. */
  lemma EffectClear(m: Machine, reach: Reach, l: Layout, all: set<nat>, opc: Opcode, vs: seq<int>, mem: Memory, mem': Memory, tr: Trace)
    requires Local(m, reach) && AgreeOut(l, all, mem, mem') && Clear(l, all, Touched(m, reach, opc, vs, tr))
    ensures var o, o' := Effect(m, opc, vs, mem, tr), Effect(m, opc, vs, mem', tr);
      o.result == o'.result && o.trace == o'.trace && AgreeOut(l, all, o.mem, o'.mem) && Shields(l, all, mem', o'.mem)
  {
    hide AgreeOut, Shields, Address, PureResult, Nth, Clear, SameOn, Confined;
    NothingChanges(l, all, mem');
    match opc {
      case Ld | LdMem | LdStk => LoadClear(m, reach, l, all, Address(m, Nth(vs, 0), Nth(vs, 1)), mem, mem');
      case St | StMem | StStk =>
        var a, v := Address(m, Nth(vs, 0), Nth(vs, 1)), Nth(vs, 2);
        ClearUpdate(l, all, reach.stores(a), mem, mem', m.store(mem, a, v), m.store(mem', a, v));
      case Bulk(c) => ClearUpdate(l, all, reach.bulk(c, vs), mem, mem', m.bulk(c, vs, mem), m.bulk(c, vs, mem'));
      case Call(k) =>
        var tr' := tr + [EvCall(k, vs)];
        ClearUpdate(l, all, reach.callee(tr'), mem, mem', m.callMem(tr', mem), m.callMem(tr', mem'));
      case _ =>
    }
  }

  // ---------------------------------------------------------------- instructions

  /** Memory with the frame in it, and what the observer saw. */
  datatype Bytewise = Bytewise(mem: Memory, trace: Trace)

  datatype FlatPerformed = FlatPerformed(result: int, world: Bytewise)

  /** Spill code reads and writes the frame at the address its operands say, unseen by the observer;
      everything else is as in the intermediate representation. */
  function PerformFlat(m: Machine, l: Layout, frame: set<nat>, ins: Ins, vs: seq<int>, w: Bytewise): FlatPerformed {
    var a := Address(m, Nth(vs, 0), Nth(vs, 1));
    match (SlotLoaded(ins, frame), SlotStored(ins, frame))
    case (Some(s), _) => FlatPerformed(Decode(l.RangeOf(s), ReadBytes(w.mem, a, l.Width(s))), w)
    case (None, Some(s)) => FlatPerformed(0, w.(mem := WriteBytes(w.mem, a, Bytes(l.Width(s), Nth(vs, 2)))))
    case (None, None) =>
      var o := Effect(m, ins.opcode, vs, w.mem, w.trace);
      FlatPerformed(o.result, Bytewise(o.mem, o.trace))
  }

  ghost predicate HoldsSlots(l: Layout, frame: set<nat>, slots: Slots, mem: Memory) {
    forall s :: s in frame ==> l.Held(mem, s) == SlotAt(slots, s)
  }

  /** The frame holds the slots of `frame`; `all` are all the slots there are, in use or not. */
  ghost predicate InFrame(l: Layout, frame: set<nat>, all: set<nat>, w: World, w': Bytewise) {
    w'.trace == w.trace && AgreeOut(l, all, w.mem, w'.mem) && HoldsSlots(l, frame, w.slots, w'.mem)
  }

  /** With sources vs the instruction uses slots as it should: spill code at their addresses and with
      values that fit, other code not at all. */
  ghost predicate Sound(m: Machine, reach: Reach, l: Layout, frame: set<nat>, all: set<nat>, ins: Ins, vs: seq<int>, trace: Trace) {
    var a := Address(m, Nth(vs, 0), Nth(vs, 1));
    match (SlotLoaded(ins, frame), SlotStored(ins, frame))
    case (Some(s), _) => a == l.Addr(s)
    case (None, Some(s)) => a == l.Addr(s) && l.RangeOf(s).Has(Nth(vs, 2))
    case (None, None) => Clear(l, all, Touched(m, reach, ins.opcode, vs, trace))
  }

  lemma ShieldedSlots(l: Layout, frame: set<nat>, all: set<nat>, slots: Slots, mem: Memory, mem': Memory)
    requires HoldsSlots(l, frame, slots, mem) && frame <= all && Shields(l, all, mem, mem')
    ensures HoldsSlots(l, frame, slots, mem')
  {
    hide l.Held, Shields;
    forall s | s in frame ensures l.Held(mem', s) == l.Held(mem, s) { ShieldedSlot(l, all, s, mem, mem'); }
  }

  lemma AgreeTwice(l: Layout, all: set<nat>, a: Memory, b: Memory, c: Memory)
    requires AgreeOut(l, all, a, b) && AgreeOut(l, all, b, c)
    ensures AgreeOut(l, all, a, c)
  {
  }

  lemma SlotsSame(ins: Ins, frame: set<nat>)
    ensures SlotLoaded(ins, frame).Some? ==> SlotLoaded(ins, frame).value in frame
    ensures SlotStored(ins, frame).Some? ==> SlotStored(ins, frame).value in frame
  {
  }

  /** One instruction on abstract slots and on the frame. */
  lemma PerformInFrame(m: Machine, reach: Reach, l: Layout, frame: set<nat>, all: set<nat>, ins: Ins, vs: seq<int>, w: World, w': Bytewise)
    requires l.Places(m, all) && frame <= all && Local(m, reach) && InFrame(l, frame, all, w, w')
    requires Sound(m, reach, l, frame, all, ins, vs, w.trace)
    ensures var d, d' := Perform(m, frame, ins, vs, w), PerformFlat(m, l, frame, ins, vs, w');
      d.result == d'.result && InFrame(l, frame, all, d.world, d'.world)
  {
    SlotsSame(ins, frame);
    hide SlotLoaded, SlotStored, AgreeOut, Shields, Effect, Touched, Address, Nth, Clear, Local, l.Places, ReadBytes, WriteBytes, Bytes, Decode, l.RangeOf;
    match (SlotLoaded(ins, frame), SlotStored(ins, frame)) {
      case (Some(s), _) =>
      case (None, Some(s)) =>
        StoredSlot(m, l, all, s, w'.mem, Nth(vs, 2));
        var mem' := WriteBytes(w'.mem, l.Addr(s), Bytes(l.Width(s), Nth(vs, 2)));
        AgreeTwice(l, all, w.mem, w'.mem, mem');
        StoredAbstract(l, frame, s, w.slots, w'.mem, mem', Nth(vs, 2));
      case (None, None) =>
        EffectClear(m, reach, l, all, ins.opcode, vs, w.mem, w'.mem, w.trace);
        ShieldedSlots(l, frame, all, w.slots, w'.mem, Effect(m, ins.opcode, vs, w'.mem, w.trace).mem);
    }
  }

  lemma StoredAbstract(l: Layout, frame: set<nat>, s: nat, slots: Slots, mem: Memory, mem': Memory, v: int)
    requires HoldsSlots(l, frame, slots, mem) && l.Held(mem', s) == v && forall t :: t in frame && t != s ==> l.Held(mem', t) == l.Held(mem, t)
    ensures HoldsSlots(l, frame, slots[s := v], mem')
  {
    hide l.Held;
  }

  // ---------------------------------------------------------------- lists of instructions

  datatype Flat = Flat(regs: Regs, world: Bytewise)

  function ExecFlat(m: Machine, l: Layout, frame: set<nat>, ins: Ins, u: Flat): Flat {
    var d := PerformFlat(m, l, frame, ins, UseVals(m, ins, u.regs), u.world);
    Flat(match DstOf(ins) case Some(r) => u.regs[r := d.result] case None => u.regs, d.world)
  }

  function FlatList(m: Machine, l: Layout, frame: set<nat>, body: seq<Ins>, u: Flat): Flat {
    if body == [] then u else FlatList(m, l, frame, body[1..], ExecFlat(m, l, frame, body[0], u))
  }

  /** Every instruction is sound when it is executed. */
  ghost predicate SoundRun(m: Machine, reach: Reach, l: Layout, frame: set<nat>, all: set<nat>, body: seq<Ins>, t: Virtual) {
    body == [] ||
    (Sound(m, reach, l, frame, all, body[0], UseVals(m, body[0], t.regs), t.world.trace) &&
     SoundRun(m, reach, l, frame, all, body[1..], ExecVirtual(m, frame, body[0], t)))
  }

  lemma {:induction false} SoundOfConcat(m: Machine, reach: Reach, l: Layout, frame: set<nat>, all: set<nat>, a: seq<Ins>, b: seq<Ins>, t: Virtual)
    ensures SoundRun(m, reach, l, frame, all, a + b, t) <==>
      SoundRun(m, reach, l, frame, all, a, t) && SoundRun(m, reach, l, frame, all, b, RunList(m, frame, a, t))
  {
    if a == [] {
      assert a + b == b;
    } else {
      assert (a + b)[1..] == a[1..] + b;
      hide ExecVirtual, Sound, UseVals;
      SoundOfConcat(m, reach, l, frame, all, a[1..], b, ExecVirtual(m, frame, a[0], t));
    }
  }

  lemma SoundOne(m: Machine, reach: Reach, l: Layout, frame: set<nat>, all: set<nat>, ins: Ins, t: Virtual)
    ensures SoundRun(m, reach, l, frame, all, [ins], t) <==> Sound(m, reach, l, frame, all, ins, UseVals(m, ins, t.regs), t.world.trace)
    ensures RunList(m, frame, [ins], t) == ExecVirtual(m, frame, ins, t)
  {
    assert [ins][1..] == [];
    hide Sound, UseVals, ExecVirtual;
  }

  /** Virtual registers and slots on one side, virtual registers and the frame on the other. */
  ghost predicate FlatMatches(l: Layout, frame: set<nat>, all: set<nat>, t: Virtual, u: Flat) {
    u.regs == t.regs && InFrame(l, frame, all, t.world, u.world)
  }

  lemma {:induction false} FlatRuns(m: Machine, reach: Reach, l: Layout, frame: set<nat>, all: set<nat>, body: seq<Ins>, t: Virtual, u: Flat)
    requires l.Places(m, all) && frame <= all && Local(m, reach) && FlatMatches(l, frame, all, t, u)
    requires SoundRun(m, reach, l, frame, all, body, t)
    ensures FlatMatches(l, frame, all, RunList(m, frame, body, t), FlatList(m, l, frame, body, u))
  {
    hide InFrame, l.Places, Local, Sound, UseVals, Perform, PerformFlat;
    if body != [] {
      PerformInFrame(m, reach, l, frame, all, body[0], UseVals(m, body[0], t.regs), t.world, u.world);
      FlatRuns(m, reach, l, frame, all, body[1..], ExecVirtual(m, frame, body[0], t), ExecFlat(m, l, frame, body[0], u));
    }
  }

  // ---------------------------------------------------------------- spill code is sound

  /** What the values of each register range over. */
  type Ranges = RegId -> Range

  /** Each register has a slot of its size. */
  ghost predicate SlotsFit(ranges: Ranges, slotOf: SlotMap, l: Layout) { forall r :: r in slotOf ==> l.RangeOf(slotOf[r]) == ranges(r) }

  /** What one executed instruction of the original must be like: it touches no slot, and what it gives
      to a register that has a slot is a value of that register. */
  ghost predicate Proper(m: Machine, reach: Reach, l: Layout, all: set<nat>, ranges: Ranges, regs: set<RegId>, ins: Ins, s: State) {
    var vs := UseVals(m, ins, s.regs);
    && Clear(l, all, Touched(m, reach, ins.opcode, vs, s.trace))
    && (DstOf(ins).Some? && DstOf(ins).value in regs ==> ranges(DstOf(ins).value).Has(Effect(m, ins.opcode, vs, s.mem, s.trace).result))
  }

  lemma LoadSound(m: Machine, reach: Reach, l: Layout, frame: set<nat>, all: set<nat>, scratch: RegId, slot: nat, t: Virtual)
    requires l.Places(m, all) && slot in frame && frame <= all
    ensures Sound(m, reach, l, frame, all, LoadIns(scratch, slot), UseVals(m, LoadIns(scratch, slot), t.regs), t.world.trace)
  {
    var vs := UseVals(m, LoadIns(scratch, slot), t.regs);
    assert vs[0] == m.stkAddr(slot) && vs[1] == 0;
    hide UseVals;
    SlotRange(m, l, all, slot);
    hide Clear, Touched, l.Places;
  }

  lemma StoreSound(m: Machine, reach: Reach, l: Layout, frame: set<nat>, all: set<nat>, scratch: RegId, slot: nat, t: Virtual)
    requires l.Places(m, all) && slot in frame && frame <= all && l.RangeOf(slot).Has(ReadReg(t.regs, scratch))
    ensures Sound(m, reach, l, frame, all, StoreIns(slot, scratch), UseVals(m, StoreIns(slot, scratch), t.regs), t.world.trace)
  {
    var vs := UseVals(m, StoreIns(slot, scratch), t.regs);
    assert vs[0] == m.stkAddr(slot) && vs[1] == 0 && vs[2] == ReadReg(t.regs, scratch);
    hide UseVals;
    SlotRange(m, l, all, slot);
    hide Clear, Touched, l.Places;
  }

  lemma {:induction false} LoadsSound(m: Machine, reach: Reach, l: Layout, all: set<nat>, ins: Ins, slotOf: SlotMap, base: nat, n: nat, t: Virtual)
    requires l.Places(m, all) && slotOf.Values <= all && n <= |ins.operands|
    ensures SoundRun(m, reach, l, slotOf.Values, all, Loads(ins, slotOf, base, n), t)
    decreases |ins.operands| - n
  {
    var frame := slotOf.Values;
    hide l.Places, Sound, UseVals, ExecVirtual, LoadIns;
    if n < |ins.operands| {
      var rest := Loads(ins, slotOf, base, n + 1);
      LoadsSound(m, reach, l, all, ins, slotOf, base, n + 1, t);
      if NumDefs(ins.opcode) <= n && IsSpilled(ins.operands[n], slotOf) {
        var slot := slotOf[ins.operands[n].reg];
        var ld := LoadIns(Scratch(base, n), slot);
        SoundOfConcat(m, reach, l, frame, all, rest, [ld], t);
        SoundOne(m, reach, l, frame, all, ld, RunList(m, frame, rest, t));
        LoadSound(m, reach, l, frame, all, Scratch(base, n), slot, RunList(m, frame, rest, t));
      } else {
        assert rest + [] == rest;
      }
    }
  }

  lemma StoresSound(m: Machine, reach: Reach, l: Layout, all: set<nat>, ins: Ins, slotOf: SlotMap, base: nat, t: Virtual)
    requires l.Places(m, all) && slotOf.Values <= all
    requires DstOf(ins).Some? && DstOf(ins).value in slotOf ==> l.RangeOf(slotOf[DstOf(ins).value]).Has(ReadReg(t.regs, Scratch(base, 0)))
    ensures SoundRun(m, reach, l, slotOf.Values, all, Stores(ins, slotOf, base), t)
  {
    hide l.Places, l.RangeOf, Sound, UseVals, ExecVirtual, StoreIns;
    if DstOf(ins).Some? && DstOf(ins).value in slotOf {
      var slot := slotOf[DstOf(ins).value];
      SoundOne(m, reach, l, slotOf.Values, all, StoreIns(slot, Scratch(base, 0)), t);
      StoreSound(m, reach, l, slotOf.Values, all, Scratch(base, 0), slot, t);
    }
  }

  lemma AvoidsBoth(ins: Ins, frame: set<nat>)
    requires AvoidsSlots(ins, frame)
    ensures SlotLoaded(ins, frame) == None && SlotStored(ins, frame) == None
  {
  }

  lemma SpilledAvoids(ins: Ins, slotOf: SlotMap, base: nat)
    requires AvoidsSlots(ins, slotOf.Values)
    ensures AvoidsSlots(SpilledFrom(ins, slotOf, base, 0), slotOf.Values)
  {
  }

  /** The instruction itself, on scratch registers: it has the sources it had, so it is as proper, and
      gives a value that fits. */
  lemma MainSound(m: Machine, reach: Reach, l: Layout, all: set<nat>, ranges: Ranges, ins: Ins, slotOf: SlotMap, base: nat, s: State, slots: Slots,
                  t: Virtual, t1: Virtual)
    requires WfIns(ins) && Below(ins, base) && AvoidsSlots(ins, slotOf.Values) && SlotsFit(ranges, slotOf, l)
    requires Proper(m, reach, l, all, ranges, slotOf.Keys, ins, s)
    requires SpillMatches(slotOf, UsesOf(ins), Lift(s, slots), t) && Filled(ins, slotOf, base, 0, t, t1)
    ensures var main := SpilledFrom(ins, slotOf, base, 0);
      && Sound(m, reach, l, slotOf.Values, all, main, UseVals(m, main, t1.regs), t1.world.trace)
      && (DstOf(ins).Some? && DstOf(ins).value in slotOf ==>
            l.RangeOf(slotOf[DstOf(ins).value]).Has(ReadReg(ExecVirtual(m, slotOf.Values, main, t1).regs, Scratch(base, 0))))
  {
    var main := SpilledFrom(ins, slotOf, base, 0);
    SpilledReads(m, ins, slotOf, base, Lift(s, slots), t, t1);
    SpilledIns(ins, slotOf, base);
    SpilledAvoids(ins, slotOf, base);
    AvoidsBoth(main, slotOf.Values);
    assert t1.world.mem == s.mem && t1.world.trace == s.trace by { hide UsesOf, UseVals, SpilledFrom; }
    hide Effect, UseVals, SpilledFrom, DstOf, UsesOf, l.RangeOf, SlotLoaded, SlotStored, AvoidsSlots, Below, WfIns, Filled, SpillMatches, Clear, Touched;
  }

  /** One instruction with its spill code. */
  lemma ExpandSound(m: Machine, reach: Reach, l: Layout, all: set<nat>, ranges: Ranges, ins: Ins, slotOf: SlotMap, base: nat, s: State, slots: Slots, t: Virtual)
    requires WfIns(ins) && Below(ins, base) && AvoidsSlots(ins, slotOf.Values) && SlotsFit(ranges, slotOf, l)
    requires l.Places(m, all) && slotOf.Values <= all && Proper(m, reach, l, all, ranges, slotOf.Keys, ins, s)
    requires SpillMatches(slotOf, UsesOf(ins), Lift(s, slots), t)
    ensures SoundRun(m, reach, l, slotOf.Values, all, Expand(ins, slotOf, base), t)
  {
    var frame := slotOf.Values;
    var main, loads, stores := SpilledFrom(ins, slotOf, base, 0), Loads(ins, slotOf, base, 0), Stores(ins, slotOf, base);
    assert Expand(ins, slotOf, base) == loads + [main] + stores;
    hide *;
    var t1 := RunList(m, frame, loads, t);
    RunOfConcat(m, frame, loads, [main], t);
    SoundOfConcat(m, reach, l, frame, all, loads + [main], stores, t);
    SoundOfConcat(m, reach, l, frame, all, loads, [main], t);
    SoundOne(m, reach, l, frame, all, main, t1);
    LoadsSound(m, reach, l, all, ins, slotOf, base, 0, t);
    LoadsRun(m, ins, slotOf, base, 0, t);
    MainSound(m, reach, l, all, ranges, ins, slotOf, base, s, slots, t, t1);
    StoresSound(m, reach, l, all, ins, slotOf, base, ExecVirtual(m, frame, main, t1));
  }

  /** Instructions k and on of a block are proper when they are executed. */
  ghost predicate ProperRun(m: Machine, reach: Reach, l: Layout, all: set<nat>, ranges: Ranges, regs: set<RegId>, body: seq<Ins>, s: State) {
    body == [] ||
    (Proper(m, reach, l, all, ranges, regs, body[0], s) && ProperRun(m, reach, l, all, ranges, regs, body[1..], ExecIns(m, body[0], s)))
  }

  lemma SoundBodyOne(m: Machine, reach: Reach, l: Layout, all: set<nat>, ranges: Ranges, body: seq<Ins>, slotOf: SlotMap, base: nat, limit: nat,
                     out: set<RegId>, s: State, slots: Slots, t: Virtual)
    requires body != [] && SpillSetting(body, slotOf, base, limit, out) && SpillMatches(slotOf, Live(body, out), Lift(s, slots), t)
    requires SlotsFit(ranges, slotOf, l) && l.Places(m, all) && slotOf.Values <= all && ProperRun(m, reach, l, all, ranges, slotOf.Keys, body, s)
    ensures SoundRun(m, reach, l, slotOf.Values, all, Expand(body[0], slotOf, base), t)
    ensures ProperRun(m, reach, l, all, ranges, slotOf.Keys, body[1..], ExecIns(m, body[0], s))
    ensures ExecVirtual(m, {}, body[0], Lift(s, slots)) == Lift(ExecIns(m, body[0], s), slots)
  {
    RunListStep(m, {}, body, Lift(s, slots), out);
    SplitBody(body, slotOf, base, limit, out);
    VirtualIsExec(m, body[0], s, slots);
    assert Proper(m, reach, l, all, ranges, slotOf.Keys, body[0], s) && ProperRun(m, reach, l, all, ranges, slotOf.Keys, body[1..], ExecIns(m, body[0], s)) by {
      hide Proper, ExecIns, SpillSetting, SpillMatches, Live, l.Places, SlotsFit;
    }
    LiftIs(s, slots);
    LiftIs(ExecIns(m, body[0], s), slots);
    hide *;
    BelowMore(body[0], {}, limit, base) by { NoRegsBelow(limit); }
    UsesBefore(body[0], Live(body[1..], out));
    MatchesLess(slotOf, Live(body, out), UsesOf(body[0]), Lift(s, slots), t);
    ExpandSound(m, reach, l, all, ranges, body[0], slotOf, base, s, slots, t);
  }

  lemma LiftIs(s: State, slots: Slots)
    ensures Lift(s, slots) == Virtual(s.regs, World(s.mem, s.trace, slots))
  {
  }

  lemma NoRegsBelow(limit: nat)
    ensures RegsBelow({}, limit)
  {
  }

  lemma UsesBefore(ins: Ins, live: set<RegId>)
    ensures UsesOf(ins) <= LiveBefore(ins, live)
  {
    hide UsesOf;
  }

  lemma {:induction false} SpillIsSound(m: Machine, reach: Reach, l: Layout, all: set<nat>, ranges: Ranges, body: seq<Ins>, slotOf: SlotMap, base: nat,
                                        limit: nat, out: set<RegId>, s: State, slots: Slots, t: Virtual)
    requires SpillSetting(body, slotOf, base, limit, out) && SpillMatches(slotOf, Live(body, out), Lift(s, slots), t)
    requires SlotsFit(ranges, slotOf, l) && l.Places(m, all) && slotOf.Values <= all && ProperRun(m, reach, l, all, ranges, slotOf.Keys, body, s)
    ensures SoundRun(m, reach, l, slotOf.Values, all, SpillList(body, slotOf, base), t)
    decreases |body|
  {
    if body == [] { assert SpillList(body, slotOf, base) == []; }
    hide *;
    if body != [] {
      var base' := base + |body[0].operands|;
      SpillRunsOne(m, body, slotOf, base, limit, out, Lift(s, slots), t);
      SoundBodyOne(m, reach, l, all, ranges, body, slotOf, base, limit, out, s, slots, t);
      SpillIsSound(m, reach, l, all, ranges, body[1..], slotOf, base', limit, out, ExecIns(m, body[0], s), slots,
                   RunList(m, slotOf.Values, Expand(body[0], slotOf, base), t));
      SpillListStep(body, slotOf, base);
      SoundOfConcat(m, reach, l, slotOf.Values, all, Expand(body[0], slotOf, base), SpillList(body[1..], slotOf, base'), t);
    } else {
      NothingSound(m, reach, l, slotOf.Values, all, t);
    }
  }

  lemma NothingSound(m: Machine, reach: Reach, l: Layout, frame: set<nat>, all: set<nat>, t: Virtual)
    ensures SoundRun(m, reach, l, frame, all, [], t)
  {
  }

  /** All that is fixed about the frame. */
  ghost predicate FrameSetting(m: Machine, reach: Reach, l: Layout, ranges: Ranges, slotOf: SlotMap) {
    SlotsFit(ranges, slotOf, l) && l.Places(m, slotOf.Values) && Local(m, reach)
  }

  /** The slots that `FunSpill.FunSpillRegs` makes, placed by `Frame.FinalizeStackSlots` in the order of
      their names, are places of the right size. */
  lemma FinalizedFits(m: Machine, l: Layout, ranges: Ranges, stks: seq<Stk>, slotOf: SlotMap)
    requires forall r :: r in slotOf ==> slotOf[r] < |stks| && stks[slotOf[r]] == Stk(ranges(r).width, ranges(r).width) && ranges(r).width > 0
    requires forall r :: r in slotOf ==> (slotOf[r] in l.signed <==> ranges(r).signed)
    requires forall s: nat :: s < |stks| ==> s in l.rank && l.rank[s] < |l.stks| && l.stks[l.rank[s]] == stks[s]
    requires forall s: nat, t: nat :: s < |stks| && t < |stks| && s != t ==> l.rank[s] != l.rank[t]
    requires SlotsPlaced(l.stks, l.slots, l.size) && |l.slots| == |l.stks| && l.sp + l.size <= m.addrSpace
    requires forall s :: s in slotOf.Values ==> m.stkAddr(s) == l.Addr(s)
    ensures SlotsFit(ranges, slotOf, l) && l.Places(m, slotOf.Values)
  {
    hide SlotsPlaced, l.Addr;
    forall s | s in slotOf.Values ensures s in l.rank && l.rank[s] < |l.slots| && l.Width(s) > 0 {
      var r :| r in slotOf && slotOf[r] == s;
    }
    forall s, t | s in slotOf.Values && t in slotOf.Values && s != t ensures l.rank[s] != l.rank[t] {
      var q :| q in slotOf && slotOf[q] == s;
      var r :| r in slotOf && slotOf[r] == t;
    }
  }


  // ---------------------------------------------------------------- the whole function

  /** Instruction k of the n-th block of the run from s0, if there is one, is proper where it is executed. */
  ghost predicate ProperAt(m: Machine, reach: Reach, l: Layout, all: set<nat>, ranges: Ranges, regs: set<RegId>, f: Fn, s0: State, n: nat, k: nat) {
    var v := Run(m, f, s0, n);
    v.At? && k < |BblAt(f, v.bbl).inss| ==>
      Proper(m, reach, l, all, ranges, regs, InsAt(f.code, BblAt(f, v.bbl).inss[k]), ExecIds(m, f.code, BblAt(f, v.bbl).inss, k, v.state))
  }

  /** On the run from s0 the function keeps to the memory outside of the slots, and gives the registers
      in `regs` values of their kinds. */
  ghost predicate ProperFun(m: Machine, reach: Reach, l: Layout, all: set<nat>, ranges: Ranges, regs: set<RegId>, f: Fn, s0: State) {
    forall n: nat, k: nat :: ProperAt(m, reach, l, all, ranges, regs, f, s0, n, k)
  }

  ghost predicate ProperIds(m: Machine, reach: Reach, l: Layout, all: set<nat>, ranges: Ranges, regs: set<RegId>, code: seq<Ins>, ids: seq<InsId>, s: State) {
    forall k: nat :: k < |ids| ==> Proper(m, reach, l, all, ranges, regs, InsAt(code, ids[k]), ExecIds(m, code, ids, k, s))
  }

  lemma {:induction false} ProperFrom(m: Machine, reach: Reach, l: Layout, all: set<nat>, ranges: Ranges, regs: set<RegId>,
                                      code: seq<Ins>, ids: seq<InsId>, k: nat, s: State)
    requires k <= |ids| && ProperIds(m, reach, l, all, ranges, regs, code, ids, s)
    ensures ProperRun(m, reach, l, all, ranges, regs, FunSpill.Vals(code, ids)[k..], ExecIds(m, code, ids, k, s))
    decreases |ids| - k
  {
    var body := FunSpill.Vals(code, ids);
    hide Proper, ExecIns, InsAt;
    if k < |ids| {
      ProperFrom(m, reach, l, all, ranges, regs, code, ids, k + 1, s);
      assert body[k..][1..] == body[k + 1..];
    } else {
      assert body[k..] == [];
    }
  }

  lemma ProperBody(m: Machine, reach: Reach, l: Layout, all: set<nat>, ranges: Ranges, regs: set<RegId>, f: Fn, s0: State, n: nat)
    requires ProperFun(m, reach, l, all, ranges, regs, f, s0) && Run(m, f, s0, n).At?
    ensures var v := Run(m, f, s0, n); ProperRun(m, reach, l, all, ranges, regs, Body(f, v.bbl), v.state)
  {
    var v := Run(m, f, s0, n);
    var ids := BblAt(f, v.bbl).inss;
    assert ProperIds(m, reach, l, all, ranges, regs, f.code, ids, v.state) by {
      hide Proper, Run, InsAt;
      forall k: nat | k < |ids| ensures Proper(m, reach, l, all, ranges, regs, InsAt(f.code, ids[k]), ExecIds(m, f.code, ids, k, v.state)) {
        assert ProperAt(m, reach, l, all, ranges, regs, f, s0, n, k);
      }
    }
    ProperFrom(m, reach, l, all, ranges, regs, f.code, ids, 0, v.state);
    assert Body(f, v.bbl)[0..] == Body(f, v.bbl);
    hide ProperRun, ProperFun, ProperIds, Run;
  }

  datatype FlatVisit = FlatAt(bbl: BblId, state: Flat) | FlatDone(state: Flat)

  function FlatStepTo(next: Option<BblId>, u: Flat): FlatVisit {
    match next case None => FlatDone(u) case Some(c) => FlatAt(c, u)
  }

  function FlatStep(m: Machine, l: Layout, frame: set<nat>, g: Fn, x: FlatVisit): FlatVisit {
    match x
    case FlatDone(_) => x
    case FlatAt(b, u) =>
      var u' := FlatList(m, l, frame, Body(g, b), u);
      FlatStepTo(ExitTo(g, b, BlockAlloc.ExitVals(m, Body(g, b), u'.regs)), u')
  }

  function FlatRun(m: Machine, l: Layout, frame: set<nat>, g: Fn, u0: Flat, n: nat): FlatVisit {
    if n == 0 then FlatAt(First(g), u0) else FlatStep(m, l, frame, g, FlatRun(m, l, frame, g, u0, n - 1))
  }

  /** Where the run in the frame keeps register r. */
  function KeptInFrame(l: Layout, slotOf: SlotMap, u: Flat, r: RegId): int {
    if r in slotOf then l.Held(u.world.mem, slotOf[r]) else ReadReg(u.regs, r)
  }

  /** Same events, same memory outside of the slots, every register of `live` in its slot or unchanged. */
  ghost predicate FrameMatches(l: Layout, slotOf: SlotMap, live: set<RegId>, s: State, u: Flat) {
    && s.trace == u.world.trace && AgreeOut(l, slotOf.Values, s.mem, u.world.mem)
    && forall r :: r in live ==> KeptInFrame(l, slotOf, u, r) == ReadReg(s.regs, r)
  }

  ghost predicate RunsInFrame(f: Fn, liveOut: LiveMap, slotOf: SlotMap, l: Layout, v: Visit, x: FlatVisit) {
    match (v, x)
    case (At(b, s), FlatAt(c, u)) => b == c && b in f.blocks && b in liveOut && FrameMatches(l, slotOf, LiveInOf(f, b, liveOut[b]), s, u)
    case (Done(s), FlatDone(u)) => FrameMatches(l, slotOf, {}, s, u)
    case _ => false
  }

  ghost predicate FollowsSlots(slotOf: SlotMap, l: Layout, w: SlotVisit, x: FlatVisit) {
    match (w, x)
    case (SlotAtBbl(b, t), FlatAt(c, u)) => b == c && FlatMatches(l, slotOf.Values, slotOf.Values, t, u)
    case (SlotDone(t), FlatDone(u)) => FlatMatches(l, slotOf.Values, slotOf.Values, t, u)
    case _ => false
  }

  lemma SettingParts(m: Machine, reach: Reach, l: Layout, ranges: Ranges, slotOf: SlotMap)
    requires FrameSetting(m, reach, l, ranges, slotOf)
    ensures SlotsFit(ranges, slotOf, l) && l.Places(m, slotOf.Values) && Local(m, reach)
  {
    hide SlotsFit, l.Places, Local;
  }

  lemma SpilledBody(f: Fn, g: Fn, slotOf: SlotMap, bases: map<BblId, nat>, b: BblId)
    requires BlockSpilled(f, g, slotOf, bases, b)
    ensures b in bases && Body(g, b) == SpillList(Body(f, b), slotOf, bases[b])
  {
    hide Body, SpillList;
  }

  lemma FollowsAt(slotOf: SlotMap, l: Layout, b: BblId, t: Virtual, x: FlatVisit)
    requires FollowsSlots(slotOf, l, SlotAtBbl(b, t), x)
    ensures x == FlatAt(b, x.state) && FlatMatches(l, slotOf.Values, slotOf.Values, t, x.state)
  {
    hide FlatMatches;
  }

  lemma FollowsNext(m: Machine, l: Layout, slotOf: SlotMap, g: Fn, b: BblId, t: Virtual, u: Flat)
    requires FlatMatches(l, slotOf.Values, slotOf.Values, RunList(m, slotOf.Values, Body(g, b), t), FlatList(m, l, slotOf.Values, Body(g, b), u))
    ensures FollowsSlots(slotOf, l, SlotStep(m, slotOf.Values, g, SlotAtBbl(b, t)), FlatStep(m, l, slotOf.Values, g, FlatAt(b, u)))
  {
    hide RunList, FlatList, Body, ExitTo, InFrame, BlockAlloc.ExitVals;
  }

  lemma FollowsOver(m: Machine, l: Layout, slotOf: SlotMap, g: Fn, w: SlotVisit, x: FlatVisit)
    requires FollowsSlots(slotOf, l, w, x) && w.SlotDone?
    ensures FollowsSlots(slotOf, l, SlotStep(m, slotOf.Values, g, w), FlatStep(m, l, slotOf.Values, g, x))
  {
    hide FlatMatches;
  }

  lemma InSlotsDone(f: Fn, liveOut: LiveMap, slotOf: SlotMap, v: Visit, w: SlotVisit)
    requires InSlots(f, liveOut, slotOf, v, w)
    ensures v.Done? <==> w.SlotDone?
    ensures v.At? ==> w == SlotAtBbl(v.bbl, w.state)
  {
    hide SpillMatches, LiveInOf;
  }

  lemma FollowsStep(m: Machine, reach: Reach, f: Fn, g: Fn, liveOut: LiveMap, slotOf: SlotMap, bases: map<BblId, nat>, limit: nat, l: Layout,
                    ranges: Ranges, s0: State, n: nat, w: SlotVisit, x: FlatVisit)
    requires FunSetting(f, liveOut, slotOf, bases, limit) && SpilledFun(f, g, slotOf, bases) && FrameSetting(m, reach, l, ranges, slotOf)
    requires ProperFun(m, reach, l, slotOf.Values, ranges, slotOf.Keys, f, s0)
    requires InSlots(f, liveOut, slotOf, Run(m, f, s0, n), w) && FollowsSlots(slotOf, l, w, x)
    ensures FollowsSlots(slotOf, l, SlotStep(m, slotOf.Values, g, w), FlatStep(m, l, slotOf.Values, g, x))
  {
    hide *;
    var v := Run(m, f, s0, n);
    InSlotsDone(f, liveOut, slotOf, v, w);
    if v.Done? {
      FollowsOver(m, l, slotOf, g, w, x);
    } else {
      var b, s, t, u := v.bbl, v.state, w.state, x.state;
      SettingParts(m, reach, l, ranges, slotOf);
      FollowsAt(slotOf, l, b, t, x);
      InSlotsAt(f, liveOut, slotOf, b, s, w);
      SettingOf(f, g, liveOut, slotOf, bases, limit, b);
      LiveInIsLive(f, b, liveOut[b]);
      SpilledBody(f, g, slotOf, bases, b);
      ProperBody(m, reach, l, slotOf.Values, ranges, slotOf.Keys, f, s0, n);
      SpillIsSound(m, reach, l, slotOf.Values, ranges, Body(f, b), slotOf, bases[b], limit, liveOut[b], s, map[], t);
      FlatRuns(m, reach, l, slotOf.Values, slotOf.Values, Body(g, b), t, u);
      FollowsNext(m, l, slotOf, g, b, t, u);
    }
  }

  lemma FlatRunUnfolds(m: Machine, l: Layout, frame: set<nat>, g: Fn, u0: Flat, n: nat)
    requires n > 0
    ensures FlatRun(m, l, frame, g, u0, n) == FlatStep(m, l, frame, g, FlatRun(m, l, frame, g, u0, n - 1))
  {
    hide FlatStep;
  }

  lemma {:induction false} FollowsRuns(m: Machine, reach: Reach, f: Fn, g: Fn, liveOut: LiveMap, slotOf: SlotMap, bases: map<BblId, nat>, limit: nat,
                                       l: Layout, ranges: Ranges, s0: State, t0: Virtual, u0: Flat, n: nat)
    requires FunSetting(f, liveOut, slotOf, bases, limit) && SpilledFun(f, g, slotOf, bases) && FrameSetting(m, reach, l, ranges, slotOf)
    requires ProperFun(m, reach, l, slotOf.Values, ranges, slotOf.Keys, f, s0) && First(f) in liveOut
    requires SpillMatches(slotOf, LiveInOf(f, First(f), liveOut[First(f)]), Lift(s0, map[]), t0)
    requires FollowsSlots(slotOf, l, SlotRun(m, slotOf.Values, g, t0, 0), FlatRun(m, l, slotOf.Values, g, u0, 0))
    ensures FollowsSlots(slotOf, l, SlotRun(m, slotOf.Values, g, t0, n), FlatRun(m, l, slotOf.Values, g, u0, n))
  {
    hide *;
    if n > 0 {
      FollowsRuns(m, reach, f, g, liveOut, slotOf, bases, limit, l, ranges, s0, t0, u0, n - 1);
      SpilledFunRuns(m, f, g, liveOut, slotOf, bases, limit, s0, t0, n - 1);
      FollowsStep(m, reach, f, g, liveOut, slotOf, bases, limit, l, ranges, s0, n - 1, SlotRun(m, slotOf.Values, g, t0, n - 1),
                  FlatRun(m, l, slotOf.Values, g, u0, n - 1));
      SlotRunUnfolds(m, slotOf.Values, g, t0, n);
      FlatRunUnfolds(m, l, slotOf.Values, g, u0, n);
    }
  }

  /** The abstract slots that the frame holds. */
  function SlotsOf(l: Layout, frame: set<nat>, mem: Memory): Slots {
    map s | s in frame :: l.Held(mem, s)
  }

  lemma StartsInFrame(m: Machine, g: Fn, live: set<RegId>, slotOf: SlotMap, l: Layout, s0: State, u0: Flat)
    requires FrameMatches(l, slotOf, live, s0, u0)
    ensures var t0 := Virtual(u0.regs, World(s0.mem, s0.trace, SlotsOf(l, slotOf.Values, u0.world.mem)));
      && SpillMatches(slotOf, live, Lift(s0, map[]), t0)
      && FollowsSlots(slotOf, l, SlotRun(m, slotOf.Values, g, t0, 0), FlatRun(m, l, slotOf.Values, g, u0, 0))
  {
    hide First, AgreeOut, l.Held;
  }

  lemma MatchesInFrame(l: Layout, slotOf: SlotMap, live: set<RegId>, s: State, t: Virtual, u: Flat)
    requires SpillMatches(slotOf, live, Lift(s, map[]), t) && FlatMatches(l, slotOf.Values, slotOf.Values, t, u)
    ensures FrameMatches(l, slotOf, live, s, u)
  {
    hide AgreeOut, l.Held, SlotAt;
    forall r | r in live ensures KeptInFrame(l, slotOf, u, r) == ReadReg(s.regs, r) {
      assert Kept(slotOf, t, r) == ReadReg(s.regs, r);
    }
  }

  lemma BothMatch(f: Fn, liveOut: LiveMap, slotOf: SlotMap, l: Layout, v: Visit, w: SlotVisit, x: FlatVisit)
    requires InSlots(f, liveOut, slotOf, v, w) && FollowsSlots(slotOf, l, w, x)
    ensures RunsInFrame(f, liveOut, slotOf, l, v, x)
  {
    hide SpillMatches, LiveInOf, FlatMatches, FrameMatches;
    match v
    case At(b, s) => MatchesInFrame(l, slotOf, LiveInOf(f, b, liveOut[b]), s, w.state, x.state);
    case Done(s) => MatchesInFrame(l, slotOf, {}, s, w.state, x.state);
  }

  /** The function with its registers in the stack frame, on a machine whose memory operations are local.
      If the original keeps to the memory outside of the slots and to the sizes of the spilled registers,
      then at every step of the run it is at the same block with the same events behind it and the same
      memory outside of the slots, and every live register has its value in the bytes of its slot. */
  lemma SpilledToFrame(m: Machine, reach: Reach, f: Fn, g: Fn, liveOut: LiveMap, slotOf: SlotMap, bases: map<BblId, nat>, limit: nat, l: Layout,
                       ranges: Ranges, s0: State, u0: Flat, n: nat)
    requires FunSetting(f, liveOut, slotOf, bases, limit) && SpilledFun(f, g, slotOf, bases) && First(f) in liveOut
    requires FrameSetting(m, reach, l, ranges, slotOf) && ProperFun(m, reach, l, slotOf.Values, ranges, slotOf.Keys, f, s0)
    requires FrameMatches(l, slotOf, LiveInOf(f, First(f), liveOut[First(f)]), s0, u0)
    ensures RunsInFrame(f, liveOut, slotOf, l, Run(m, f, s0, n), FlatRun(m, l, slotOf.Values, g, u0, n))
  {
    hide *;
    var t0 := Virtual(u0.regs, World(s0.mem, s0.trace, SlotsOf(l, slotOf.Values, u0.world.mem)));
    StartsInFrame(m, g, LiveInOf(f, First(f), liveOut[First(f)]), slotOf, l, s0, u0);
    FollowsRuns(m, reach, f, g, liveOut, slotOf, bases, limit, l, ranges, s0, t0, u0, n);
    SpilledFunRuns(m, f, g, liveOut, slotOf, bases, limit, s0, t0, n);
    BothMatch(f, liveOut, slotOf, l, Run(m, f, s0, n), SlotRun(m, slotOf.Values, g, t0, n), FlatRun(m, l, slotOf.Values, g, u0, n));
  }
}
