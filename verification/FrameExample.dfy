/** A machine with byte-addressed memory and a function with registers of two widths, both spilled and
    kept in the frame while a loop goes on. It is as `FrameSpill.SpilledToFrame` asks. */
module FrameExample {
  import opened IR
  import opened Liveness
  import opened DeadCode
  import opened MachineCode
  import opened Spill
  import opened FunSpill
  import opened FrameSpill
  import opened Frame

  /** Loads and stores one byte; adds modulo 2^32. */
  function ByteMachine(): Machine {
    Machine(0x1_0000_0000,
      (c, vs) => (Nth(vs, 0) + Nth(vs, 1)) % 0x1_0000_0000,
      (mem, a) => ReadByte(mem, a) % 256,
      (mem, a, v) => mem[a := v % 256],
      (c, vs, mem) => mem,
      trace => |trace| % 256,
      (trace, mem) => mem,
      x => 100,
      s => if s == 0 then 4096 else 4100,
      x => 0)
  }

  function OneByte(): Reach { Reach(a => {a}, a => {a}, (c, vs) => {}, trace => {}) }

  const NARROW: RegId := RegNo(0)
  const WIDE: RegId := RegNo(1)
  const LOOP: BblId := BblNo(0)

  /** Reads a byte, adds it up, copies it to the next address, over and over. */
  function Code(): (code: seq<Ins>)
    ensures |code| == 4
  {
    [ Ins(LdMem, [RegOp(NARROW), MemOp(0), ConstOp(0)], [None, None, None]),
      Ins(Alu(0), [RegOp(WIDE), RegOp(WIDE), RegOp(NARROW)], [None, None, None]),
      Ins(StMem, [MemOp(0), ConstOp(1), RegOp(NARROW)], [None, None, None]),
      Ins(Bra, [BblOp(LOOP)], [None]) ]
  }

  function Sum(): Fn { Fn([LOOP], {LOOP}, [Bbl([0, 1, 2, 3], [LOOP], multiset{LOOP})], [], Code()) }

  function LiveMapOf(): LiveMap { map[LOOP := {WIDE}] }

  function TwoSlots(): SlotMap { map[NARROW := 0, WIDE := 1] }

  function Bases(): map<BblId, nat> { map[LOOP := 2] }

  function SumSpilled(): Fn {
    var code := SpillList(Body(Sum(), LOOP), TwoSlots(), 2);
    Fn([LOOP], {LOOP}, [Bbl(Iota(|code|), [LOOP], multiset{LOOP})], [], code)
  }

  function Places(): Layout { Layout(4096, [Stk(1, 1), Stk(4, 4)], [0, 4], 8, map[0 := 0, 1 := 1], {}) }

  function Widths(): Ranges { r => if r == NARROW then Range(1, false) else Range(4, false) }

  // ---------------------------------------------------------------- the setting

  lemma BytesAreLocal()
    ensures Local(ByteMachine(), OneByte())
  {
    hide Nth;
  }

  lemma SlotsAre()
    ensures TwoSlots().Values == {0, 1} && TwoSlots().Keys == {NARROW, WIDE}
  {
    assert TwoSlots()[NARROW] == 0 && TwoSlots()[WIDE] == 1;
  }

  lemma PlacesThem()
    ensures Places().Places(ByteMachine(), {0, 1}) && SlotsFit(Widths(), TwoSlots(), Places())
  {
    var l := Places();
    assert 0 == 0 * 1 && IsMultiple(0, 1);
    assert 4 == 1 * 4 && IsMultiple(4, 4);
    assert SlotsPlaced(l.stks, l.slots, l.size);
    hide SlotsPlaced;
    assert l.Width(0) == 1 && l.Width(1) == 4 && l.Addr(0) == 4096 && l.Addr(1) == 4100;
  }

  lemma BodyIs()
    ensures Body(Sum(), LOOP) == Code()
  {
  }

  lemma LiveInIs()
    ensures LiveInOf(Sum(), LOOP, {WIDE}) == {WIDE}
  {
    LiveInIsLive(Sum(), LOOP, {WIDE});
    BodyIs();
    hide LiveInOf, Body;
    LiveInCode();
  }

  lemma LiveStep(ins: Ins, rest: seq<Ins>, out: set<RegId>)
    ensures Live([ins] + rest, out) == LiveBefore(ins, Live(rest, out))
  {
    assert ([ins] + rest)[1..] == rest;
    hide LiveBefore;
  }

  lemma UsesAre()
    ensures UsesOf(Code()[0]) == {} && UsesOf(Code()[1]) == {WIDE, NARROW} && UsesOf(Code()[2]) == {NARROW} && UsesOf(Code()[3]) == {}
  {
    var a, b := Code()[1], Code()[2];
    assert a.operands[1] == RegOp(WIDE) && a.operands[2] == RegOp(NARROW) && b.operands[2] == RegOp(NARROW);
    assert UsesReg(a, WIDE) && UsesReg(a, NARROW) && UsesReg(b, NARROW);
  }

  lemma LiveInCode()
    ensures Live(Code(), {WIDE}) == {WIDE}
  {
    var code := Code();
    UsesAre();
    assert code == [code[0]] + ([code[1]] + ([code[2]] + ([code[3]] + [])));
    LiveStep(code[3], [], {WIDE});
    LiveStep(code[2], [code[3]] + [], {WIDE});
    LiveStep(code[1], [code[2]] + ([code[3]] + []), {WIDE});
    LiveStep(code[0], [code[1]] + ([code[2]] + ([code[3]] + [])), {WIDE});
    assert Live([], {WIDE}) == {WIDE};
    hide Live, UsesOf;
    assert LiveBefore(code[3], {WIDE}) == {WIDE};
    assert LiveBefore(code[2], {WIDE}) == {WIDE, NARROW};
    assert LiveBefore(code[1], {WIDE, NARROW}) == {WIDE, NARROW};
    assert LiveBefore(code[0], {WIDE, NARROW}) == {WIDE};
  }

  lemma SumIsSet()
    ensures FunSetting(Sum(), LiveMapOf(), TwoSlots(), Bases(), 2)
  {
    LiveInIs();
    BodyIs();
    SlotsAre();
    hide LiveInOf, Body;
    assert SpillSetting(Code(), TwoSlots(), 2, 2, {WIDE});
    hide SpillSetting;
  }

  lemma SumIsSpilled()
    ensures SpilledFun(Sum(), SumSpilled(), TwoSlots(), Bases())
  {
    var code := SpillList(Body(Sum(), LOOP), TwoSlots(), 2);
    assert Body(SumSpilled(), LOOP) == code by { hide SpillList; }
    hide SpillList, Body;
  }

  // ---------------------------------------------------------------- the run

  lemma NotCovered(a: int)
    requires a < 4096
    ensures Clear(Places(), {0, 1}, {a})
  {
  }

  lemma FourBytes(x: int)
    ensures Range(4, false).Has(x % 0x1_0000_0000) && Range(1, false).Has(x % 256)
  {
    assert Pow256(1) == 256;
    assert Pow256(2) == 0x1_0000;
    assert Pow256(3) == 0x100_0000;
    assert Pow256(4) == 0x1_0000_0000;
  }

  lemma ProperHere(k: nat, s: State)
    requires k < 4
    ensures Proper(ByteMachine(), OneByte(), Places(), {0, 1}, Widths(), {NARROW, WIDE}, Code()[k], s)
  {
    var m, ins := ByteMachine(), Code()[k];
    var vs := UseVals(m, ins, s.regs);
    hide Clear, Range.Has;
    match k {
      case 0 =>
        assert vs[0] == 100 && vs[1] == 0;
        NotCovered(100);
        FourBytes(ReadByte(s.mem, 100));
      case 1 =>
        FourBytes(Nth(vs, 0) + Nth(vs, 1));
        NothingToClear();
      case 2 =>
        assert vs[0] == 100 && vs[1] == 1;
        NotCovered(101);
      case _ => NothingToClear();
    }
  }

  lemma NothingToClear()
    ensures Clear(Places(), {0, 1}, {})
  {
  }

  lemma SumIsProper(s0: State)
    ensures ProperFun(ByteMachine(), OneByte(), Places(), {0, 1}, Widths(), {NARROW, WIDE}, Sum(), s0)
  {
    var m, f := ByteMachine(), Sum();
    forall n: nat, k: nat ensures ProperAt(m, OneByte(), Places(), {0, 1}, Widths(), {NARROW, WIDE}, f, s0, n, k) {
      RunStaysInside(m, f, s0, n);
      var v := Run(m, f, s0, n);
      if v.At? && k < 4 { ProperHere(k, ExecIds(m, f.code, BblAt(f, v.bbl).inss, k, v.state)); }
      hide Run, Proper, ExecIds, ByteMachine, OneByte, Places, Widths, Code;
    }
  }

  /** The wide register is in its slot when the loop is entered. */
  function Entered(s0: State): Flat {
    Flat(s0.regs, Bytewise(WriteBytes(s0.mem, 4100, Bytes(4, ReadReg(s0.regs, WIDE))), s0.trace))
  }

  lemma EnteredMatches(s0: State)
    requires Range(4, false).Has(ReadReg(s0.regs, WIDE))
    ensures FrameMatches(Places(), TwoSlots(), {WIDE}, s0, Entered(s0))
  {
    PlacesThem();
    SlotsAre();
    var l := Places();
    assert l.Width(1) == 4 && l.Addr(1) == 4100 && l.RangeOf(1) == Range(4, false);
    hide Places, Bytes, WriteBytes, Range.Has, AgreeOut, l.Held, l.Addr, l.Width, l.RangeOf, l.Places;
    StoredSlot(ByteMachine(), l, {0, 1}, 1, s0.mem, ReadReg(s0.regs, WIDE));
  }

  /** The loop with both registers in the frame, bytes and all: whatever is in memory, it does what the
      loop does for as long as it runs. */
  lemma SumInFrame(s0: State, n: nat)
    requires Range(4, false).Has(ReadReg(s0.regs, WIDE))
    ensures FunSetting(Sum(), LiveMapOf(), TwoSlots(), Bases(), 2) && SpilledFun(Sum(), SumSpilled(), TwoSlots(), Bases())
    ensures FrameSetting(ByteMachine(), OneByte(), Places(), Widths(), TwoSlots())
    ensures ProperFun(ByteMachine(), OneByte(), Places(), TwoSlots().Values, Widths(), TwoSlots().Keys, Sum(), s0)
    ensures RunsInFrame(Sum(), LiveMapOf(), TwoSlots(), Places(), Run(ByteMachine(), Sum(), s0, n),
                        FlatRun(ByteMachine(), Places(), TwoSlots().Values, SumSpilled(), Entered(s0), n))
  {
    SlotsAre();
    LiveInIs();
    assert First(Sum()) == LOOP && LiveMapOf()[LOOP] == {WIDE};
    BytesAreLocal();
    PlacesThem();
    assert FrameSetting(ByteMachine(), OneByte(), Places(), Widths(), TwoSlots()) by {
      hide Places, Local, SlotsFit, ByteMachine, OneByte, Widths, Layout.Places;
    }
    hide *;
    SumIsSet();
    SumIsSpilled();
    SumIsProper(s0);
    EnteredMatches(s0);
    SpilledToFrame(ByteMachine(), OneByte(), Sum(), SumSpilled(), LiveMapOf(), TwoSlots(), Bases(), 2, Places(), Widths(), s0, Entered(s0), n);
  }
}
