/**
 * The CPU object of the single-header build (include/w65c02s.h): the
 * registers, the interrupt bookkeeping and the helpers that change them in
 * place. The value-level rules (the CPU-state word, the stack, the effect of
 * a read operation on the registers) are functions with their lemmas; class
 * `Cpu` holds the fields of `struct w65c02s_cpu` that the core touches, and
 * its methods are proved to update them by those rules.
 *
 * Memory is the 64K array the `mem_read`/`mem_write` callbacks would give
 * a plain RAM system: `mem[addr]` is what a read returns, and a write
 * replaces it.
 */
module Machine {
  import opened Alu
  import opened Decode

  // ---------------------------------------------------------------------
  // The CPU-state word (include/w65c02s.h:635-661)

  const StateRun: bv32 := 0
  const StateReset: bv32 := 1
  const StateWait: bv32 := 2
  const StateStop: bv32 := 3
  const StateIrq: bv32 := 4
  const StateNmi: bv32 := 8

  /** `CPU_STATE_HAS_FLAG` as a truth value. */
  predicate HasState(st: bv32, flag: bv32) { st & flag != 0 }

  /** `CPU_STATE_EXTRACT`: the run state, the low two bits. */
  function Extract(st: bv32): bv32 { st & 3 }

  /** `CPU_STATE_INSERT`: a new run state in the low two bits; the IRQ and
      NMI bits and every bit above them stay as they were. */
  function Insert(st: bv32, s: bv32): bv32
    requires s <= StateStop
  {
    (st & !3) | s
  }

  /** Inserting a run state sets the low two bits to it and nothing else. */
  lemma InsertState(st: bv32, s: bv32)
    requires s <= StateStop
    ensures Extract(Insert(st, s)) == s && Insert(st, s) & !3 == st & !3
  {
  }

  /** `w65c02s_reset`: the run state becomes RESET and pending IRQ and NMI
      are dropped; nothing above bit 3 changes. */
  function ResetSignal(st: bv32): (r: bv32)
    ensures Extract(r) == StateReset
    ensures !HasState(r, StateIrq) && !HasState(r, StateNmi)
    ensures r & !15 == st & !15
  {
    Insert(st, StateReset) & !StateIrq & !StateNmi
  }

  /** `w65c02s_nmi` on (`cpu_state`, `int_trig`): the NMI line is recorded;
      a CPU waiting in WAI is woken with the NMI pending. */
  function NmiSignal(st: bv32, trig: bv32): (r: (bv32, bv32))
    ensures HasState(r.1, StateNmi) && r.1 & !StateNmi == trig & !StateNmi
    ensures Extract(st) == StateWait ==>
      Extract(r.0) == StateRun && HasState(r.0, StateNmi) && r.0 & !11 == st & !11
    ensures Extract(st) != StateWait ==> r.0 == st
  {
    var t := trig | StateNmi;
    if Extract(st) == StateWait then (Insert(st, StateRun) | StateNmi, t) else (st, t)
  }

  /** `w65c02s_irq` on (`cpu_state`, `int_trig`), given `int_mask`: the IRQ
      line is recorded; a CPU waiting in WAI is woken, and the IRQ becomes
      pending only if the mask lets it through. */
  function IrqSignal(st: bv32, trig: bv32, mask: bv32): (r: (bv32, bv32))
    ensures HasState(r.1, StateIrq) && r.1 & !StateIrq == trig & !StateIrq
    ensures Extract(st) == StateWait ==>
      Extract(r.0) == StateRun
      && (HasState(r.0, StateIrq) <==> HasState(st, StateIrq) || HasState(mask, StateIrq))
      && r.0 & !7 == st & !7
    ensures Extract(st) != StateWait ==> r.0 == st
  {
    var t := trig | StateIrq;
    if Extract(st) == StateWait then (Insert(st, StateRun) | (StateIrq & mask), t) else (st, t)
  }

  /** `w65c02s_irq_cancel`: only the IRQ bit of `int_trig` is cleared. */
  function IrqCancelTrig(trig: bv32): (r: bv32)
    ensures !HasState(r, StateIrq) && r & !StateIrq == trig & !StateIrq
  {
    trig & !StateIrq
  }

  /** `irq_update_mask`: with I set the mask blocks exactly the IRQ bit,
      otherwise it blocks nothing. */
  function UpdateMask(p: bv8): (m: bv32)
    ensures HasState(m, StateIrq) <==> !Has(p, FlagI)
    ensures m | StateIrq == !0
  {
    if Has(p, FlagI) then !StateIrq else !0
  }

  /** `irq_latch`: the active lines that the mask lets through become
      pending. */
  function Latch(st: bv32, trig: bv32, mask: bv32): bv32 { st | (trig & mask) }

  /** `irq_latch_slow`: the IRQ bit is sampled afresh instead of kept. */
  function LatchSlow(st: bv32, trig: bv32, mask: bv32): bv32 {
    Latch(st & !StateIrq, trig, mask)
  }

  /** Latching never drops a pending bit, always passes an active NMI, and
      passes an active IRQ exactly when I is clear. */
  lemma LatchHonoursMask(st: bv32, trig: bv32, p: bv8)
    ensures var r := Latch(st, trig, UpdateMask(p));
      r & st == st
      && (HasState(r, StateNmi) <==> HasState(st, StateNmi) || HasState(trig, StateNmi))
      && (HasState(r, StateIrq) <==> HasState(st, StateIrq) || (HasState(trig, StateIrq) && !Has(p, FlagI)))
  {
    var m := UpdateMask(p);
    assert HasState(m, StateNmi) by { assert m | StateIrq == !0; }
  }

  /** After the slow latch the IRQ bit is pending iff the line is active and
      I is clear, whatever was pending before. */
  lemma LatchSlowSamples(st: bv32, trig: bv32, p: bv8)
    ensures HasState(LatchSlow(st, trig, UpdateMask(p)), StateIrq)
      <==> HasState(trig, StateIrq) && !Has(p, FlagI)
  {
    var m := UpdateMask(p);
    assert HasState(m, StateIrq) <==> !Has(p, FlagI);
  }

  /** What `handle_interrupt` finds to serve. */
  datatype Interrupt = NoInterrupt | ResetInterrupt | NmiInterrupt | IrqInterrupt

  /** RESET (run state RESET) comes before a pending NMI, which comes
      before a pending IRQ. */
  function Pending(st: bv32): Interrupt {
    if Extract(st) == StateReset then ResetInterrupt
    else if HasState(st, StateNmi) then NmiInterrupt
    else if HasState(st, StateIrq) then IrqInterrupt
    else NoInterrupt
  }

  /** The priority of an interrupt kind; NoInterrupt is lowest. */
  function Rank(i: Interrupt): nat {
    match i
    case NoInterrupt => 0
    case IrqInterrupt => 1
    case NmiInterrupt => 2
    case ResetInterrupt => 3
  }

  /** The CPU-state word and `int_trig` after `handle_reset`,
      `handle_nmi` or `handle_irq` served what `Pending` found. */
  function Serve(st: bv32, trig: bv32): (bv32, bv32) {
    match Pending(st)
    case ResetInterrupt => (Insert(st, StateRun) & !StateNmi & !StateIrq, trig)
    case NmiInterrupt => (st & !StateNmi, trig & !StateNmi)
    case IrqInterrupt => (st & !StateIrq, trig)
    case NoInterrupt => (st, trig)
  }

  /** Serving an interrupt removes it: afterwards only a strictly lower kind
      can be pending — after RESET nothing, after NMI at most an IRQ. The
      NMI line itself is cleared too, so it is not served twice. */
  lemma ServeLowersPriority(st: bv32, trig: bv32)
    ensures Pending(st) != NoInterrupt ==> Rank(Pending(Serve(st, trig).0)) < Rank(Pending(st))
    ensures Pending(st) == ResetInterrupt ==> Pending(Serve(st, trig).0) == NoInterrupt
    ensures Pending(st) == NmiInterrupt ==> !HasState(Serve(st, trig).1, StateNmi)
  {
    match Pending(st)
    case ResetInterrupt =>
      ClearedRun(st);
    case NmiInterrupt =>
      ClearedBit(st, StateNmi);
      ClearedBit(trig, StateNmi);
    case IrqInterrupt =>
      ClearedBit(st, StateIrq);
    case NoInterrupt =>
  }

  /** Serving RESET leaves the run state RUN with nothing pending. */
  lemma ClearedRun(st: bv32)
    ensures var r := Insert(st, StateRun) & !StateNmi & !StateIrq;
      Extract(r) == StateRun && !HasState(r, StateNmi) && !HasState(r, StateIrq)
  {
  }

  /** Clearing the NMI or the IRQ bit keeps the run state and the other
      bit. */
  lemma ClearedBit(st: bv32, bit: bv32)
    requires bit == StateNmi || bit == StateIrq
    ensures var r := st & !bit;
      Extract(r) == Extract(st) && !HasState(r, bit)
      && HasState(r, (StateNmi | StateIrq) - bit) == HasState(st, (StateNmi | StateIrq) - bit)
  {
  }

  // ---------------------------------------------------------------------
  // The stack (include/w65c02s.h:770-771, 1130-1138)

  /** `stack_push` on (S, memory): write at page one offset S, then S - 1
      modulo 256. Every other byte of memory stays. */
  function PushStack(s: byte, mem: seq<byte>, v: byte): (r: (byte, seq<byte>))
    requires |mem| == 0x1_0000
    ensures |r.1| == 0x1_0000 && r.1[StackAddr(s)] == v
    ensures forall i | 0 <= i < 0x1_0000 && i != StackAddr(s) :: r.1[i] == mem[i]
    ensures r.0 == (s + 255) % 256
  {
    ((s - 1) % 256, mem[StackAddr(s) := v])
  }

  /** `stack_pull` on (S, memory): S + 1 modulo 256, then the byte there;
      returns (value, new S). */
  function PullStack(s: byte, mem: seq<byte>): (r: (byte, byte))
    requires |mem| == 0x1_0000
  {
    var t := (s + 1) % 256;
    (mem[StackAddr(t)], t)
  }

  /** A pull right after a push returns the pushed byte and restores S. */
  lemma PullAfterPush(s: byte, mem: seq<byte>, v: byte)
    requires |mem| == 0x1_0000
    ensures var (t, m) := PushStack(s, mem, v); PullStack(t, m) == (v, s)
  {
  }

  /** Pushing back the byte just pulled restores both S and memory. */
  lemma PushAfterPull(s: byte, mem: seq<byte>)
    requires |mem| == 0x1_0000
    ensures var (v, t) := PullStack(s, mem); PushStack(t, mem, v) == (s, mem)
  {
    var (v, t) := PullStack(s, mem);
    assert (t - 1) % 256 == s;
    assert mem[StackAddr(t) := v] == mem;
  }

  // ---------------------------------------------------------------------
  // Read operations (include/w65c02s.h:1207-1290)

  /** The registers a read operation can change. */
  datatype Regs = Regs(a: byte, x: byte, y: byte, p: bv8, pAdj: bv8)

  /** The effect of the read operation `oper` with operand `v` on the
      registers, and whether it takes the decimal-mode penalty cycle: the
      shared part of `oper_imm` and `oper_addr`. `imm` selects BIT
      immediate, which only sets Z. NOP, the stores (handled by the caller)
      and an unknown operation change nothing. */
  function ReadOp(oper: nat, r: Regs, v: byte, imm: bool): (Regs, bool) {
    if OperAnd <= oper <= OperSbc then
      var t := AluOp(r.p, r.pAdj, oper, r.a, v);
      (r.(a := t.0, p := t.1, pAdj := t.2), oper >= OperAdc && Has(t.1, FlagD))
    else if oper == OperCmp then (r.(p := Cmp(r.p, r.a, v)), false)
    else if oper == OperCpx then (r.(p := Cmp(r.p, r.x, v)), false)
    else if oper == OperCpy then (r.(p := Cmp(r.p, r.y, v)), false)
    else if oper == OperBit then (r.(p := if imm then BitImm(r.p, r.a, v) else Bit(r.p, r.a, v)), false)
    else if oper == OperLda then (r.(a := v, p := MarkNz(r.p, v)), false)
    else if oper == OperLdx then (r.(x := v, p := MarkNz(r.p, v)), false)
    else if oper == OperLdy then (r.(y := v, p := MarkNz(r.p, v)), false)
    else (r, false)
  }

  /** Only ADC and SBC in decimal mode take the penalty cycle. */
  lemma ReadOpPenalty(oper: nat, r: Regs, v: byte, imm: bool)
    ensures ReadOp(oper, r, v, imm).1 <==> (oper == OperAdc || oper == OperSbc) && Has(r.p, FlagD)
  {
    if OperAnd <= oper <= OperSbc {
      var t := AluOp(r.p, r.pAdj, oper, r.a, v);
      KeepsFlag(t.1, r.p, FlagN | FlagV | FlagZ | FlagC, FlagD);
    }
  }

  /** Each read operation writes at most its own register: A for the
      arithmetic and logical operations and LDA, X for LDX, Y for LDY; and
      of P only N, V, Z and C can change. */
  lemma ReadOpTargets(oper: nat, r: Regs, v: byte, imm: bool)
    ensures var q := ReadOp(oper, r, v, imm).0;
      (q.a != r.a ==> OperAnd <= oper <= OperSbc || oper == OperLda)
      && (q.x != r.x ==> oper == OperLdx) && (q.y != r.y ==> oper == OperLdy)
      && Outside(q.p, r.p, FlagN | FlagV | FlagZ | FlagC)
  {
    var q := ReadOp(oper, r, v, imm).0;
    var all := FlagN | FlagV | FlagZ | FlagC;
    if OperAnd <= oper <= OperSbc {
    } else if OperCmp <= oper <= OperCpy {
      OutsideWiden(q.p, r.p, FlagN | FlagZ | FlagC, all);
    } else if oper == OperBit && imm {
      OutsideWiden(q.p, r.p, FlagZ, all);
    } else if oper == OperBit {
      OutsideWiden(q.p, r.p, FlagN | FlagV | FlagZ, all);
    } else if OperLda <= oper <= OperLdy {
      OutsideWiden(q.p, r.p, FlagN | FlagZ, all);
    }
  }

  /** The loads copy the operand and set N and Z from it. */
  lemma ReadOpLoads(oper: nat, r: Regs, v: byte, imm: bool)
    requires OperLda <= oper <= OperLdy
    ensures var q := ReadOp(oper, r, v, imm).0;
      (if oper == OperLda then q.a else if oper == OperLdx then q.x else q.y) == v
      && ShowsNz(q.p, v)
  {
  }

  /** The byte a store operation writes: A, X, Y, or zero for STZ. */
  function StoreValue(oper: nat, r: Regs): (v: byte)
    requires OperIsStore(oper)
  {
    if oper == OperSta then r.a else if oper == OperStx then r.x
    else if oper == OperSty then r.y else 0
  }

  /** `GET_T16`: two temporary bytes read as a little-endian address. */
  function T16(lo: byte, hi: byte): (r: word)
    ensures r % 256 == lo && r / 256 == hi
  {
    lo + 256 * hi
  }

  // ---------------------------------------------------------------------
  // The CPU (include/w65c02s.h:537-592)

  class Cpu {
    var cpuState: bv32
    var intTrig: bv32
    var intMask: bv32
    /** `tr`: temporary bytes kept between cycles. */
    const tr: array<byte>
    var pc: word
    var a: byte
    var x: byte
    var y: byte
    var s: byte
    var p: bv8
    /** P as it should read after a decimal-mode ADC or SBC. */
    var pAdj: bv8
    var mode: nat
    var oper: nat
    var inNmi: bool
    var inRst: bool
    var inIrq: bool
    /** What the memory callbacks read and write. */
    var mem: seq<byte>

    predicate Valid()
      reads this
    {
      tr.Length == 5 && |mem| == 0x1_0000
    }

    /** The registers a read operation can change. */
    function Registers(): Regs
      reads this
    {
      Regs(a, x, y, p, pAdj)
    }

    /** `w65c02s_init`: no line active, nothing being served, and the run
        state RESET, so the first step runs the reset sequence. */
    constructor Init(memory: seq<byte>)
      requires |memory| == 0x1_0000
      ensures Valid() && fresh(tr) && mem == memory
      ensures intTrig == 0 && !inNmi && !inRst && !inIrq
      ensures cpuState == StateReset
    {
      tr := new byte[5];
      mem := memory;
      intTrig := 0;
      inNmi, inRst, inIrq := false, false, false;
      cpuState := StateReset;
    }

    // -- flag updates and ALU operations (include/w65c02s.h:930-1101)

    /** `mark_nz` */
    method MarkNz(q: byte) returns (r: byte)
      modifies this`p
      ensures r == q && p == Alu.MarkNz(old(p), q)
    {
      p := SetP(p, FlagN, q / 0x80 == 1);
      p := SetP(p, FlagZ, q == 0);
      r := q;
    }

    /** `mark_nzc` */
    method MarkNzc(q: nat, c: nat) returns (r: byte)
      modifies this`p
      ensures (r, p) == Alu.MarkNzc(old(p), q, c)
    {
      p := SetP(p, FlagC, c != 0);
      r := MarkNz(q % 256);
    }

    /** `mark_nzc8` */
    method MarkNzc8(q: nat) returns (r: byte)
      modifies this`p
      ensures (r, p) == Alu.MarkNzc8(old(p), q)
    {
      r := MarkNzc(q, q / 256);
    }

    /** `oper_inc` */
    method OperInc(v: byte) returns (r: byte)
      modifies this`p
      ensures (r, p) == Inc(old(p), v)
    {
      r := MarkNz((v + 1) % 256);
    }

    /** `oper_dec` */
    method OperDec(v: byte) returns (r: byte)
      modifies this`p
      ensures (r, p) == Dec(old(p), v)
    {
      r := MarkNz((v - 1) % 256);
    }

    /** `oper_asl` */
    method OperAsl(v: byte) returns (r: byte)
      modifies this`p
      ensures (r, p) == Asl(old(p), v)
    {
      r := MarkNzc(v * 2, v / 128);
    }

    /** `oper_lsr` */
    method OperLsr(v: byte) returns (r: byte)
      modifies this`p
      ensures (r, p) == Lsr(old(p), v)
    {
      r := MarkNzc(v / 2, v % 2);
    }

    /** `oper_rol` */
    method OperRol(v: byte) returns (r: byte)
      modifies this`p
      ensures (r, p) == Rol(old(p), v)
    {
      r := MarkNzc(v * 2 + Carry(p), v / 128);
    }

    /** `oper_ror` */
    method OperRor(v: byte) returns (r: byte)
      modifies this`p
      ensures (r, p) == Ror(old(p), v)
    {
      r := MarkNzc(v / 2 + Carry(p) * 128, v % 2);
    }

    /** `oper_adc_d`: starts `p_adj` from P, then writes the decimal N, Z
        and C into it and the decimal C into P. */
    method OperAdcD(a: byte, b: byte, c: int) returns (r: byte)
      requires 0 <= c <= 1
      modifies this`p, this`pAdj
      ensures (r, p, pAdj) == AdcD(old(p), a, b, c)
    {
      var t := AdcD(p, a, b, c);
      r, p, pAdj := t.0, t.1, t.2;
    }

    /** `oper_sbc_d`, with `b` already complemented. */
    method OperSbcD(a: byte, b: byte, c: int) returns (r: byte)
      requires 0 <= c <= 1
      modifies this`p, this`pAdj
      ensures (r, p, pAdj) == SbcD(old(p), a, b, c)
    {
      var t := SbcD(p, a, b, c);
      r, p, pAdj := t.0, t.1, t.2;
    }

    /** The binary steps `oper_adc` and `oper_sbc` share: V from
        `oper_adc_v`, then N, Z and C from the nine-bit sum. */
    method AddBinaryStep(a: byte, b: byte, c: int) returns (r: byte)
      requires 0 <= c <= 1
      modifies this`p
      ensures (r, p) == AddBinary(old(p), a, b, c)
    {
      p := SetP(p, FlagV, AdcV(a, b, c) != 0);
      r := MarkNzc8(a + b + c);
    }

    /** `oper_adc`: V, then N, Z and C of the binary sum, then the decimal
        correction when D is set. */
    method OperAdc(a: byte, b: byte) returns (r: byte)
      modifies this`p, this`pAdj
      ensures (r, p, pAdj) == Adc(old(p), old(pAdj), a, b)
    {
      var c := Carry(p);
      r := AddBinaryStep(a, b, c);
      AdcSteps(old(p), old(pAdj), a, b);
      KeepsFlag(p, old(p), FlagN | FlagV | FlagZ | FlagC, FlagD);
      if Has(p, FlagD) {
        r := OperAdcD(a, b, c);
      }
    }

    /** `oper_sbc`: `oper_adc` on the complement, with `oper_sbc_d`. */
    method OperSbc(a: byte, b: byte) returns (r: byte)
      modifies this`p, this`pAdj
      ensures (r, p, pAdj) == Sbc(old(p), old(pAdj), a, b)
    {
      var c := Carry(p);
      var nb := Not(b);
      r := AddBinaryStep(a, nb, c);
      SbcSteps(old(p), old(pAdj), a, b);
      KeepsFlag(p, old(p), FlagN | FlagV | FlagZ | FlagC, FlagD);
      if Has(p, FlagD) {
        r := OperSbcD(a, nb, c);
      }
    }

    /** `oper_cmp`: only the flags change. */
    method OperCmp(a: byte, b: byte)
      modifies this`p
      ensures p == Cmp(old(p), a, b)
    {
      var _ := MarkNzc8(a + Not(b) + 1);
    }

    /** `oper_bit` */
    method OperBit(a: byte, b: byte)
      modifies this`p
      ensures p == Bit(old(p), a, b)
    {
      p := Bit(p, a, b);
    }

    /** `oper_bit_imm` */
    method OperBitImm(a: byte, b: byte)
      modifies this`p
      ensures p == BitImm(old(p), a, b)
    {
      p := BitImm(p, a, b);
    }

    /** `oper_tsb`: TSB when `setBits`, TRB otherwise. */
    method OperTsb(a: byte, b: byte, setBits: bool) returns (r: byte)
      modifies this`p
      ensures (r, p) == Tsb(old(p), a, b, setBits)
    {
      var t := Tsb(p, a, b, setBits);
      r, p := t.0, t.1;
    }

    /** `oper_rmw` */
    method OperRmw(op: nat, v: byte) returns (r: byte)
      modifies this`p
      ensures (r, p) == Rmw(old(p), op, v)
    {
      if op == Alu.OperAsl {
        r := OperAsl(v);
      } else if op == Alu.OperDec {
        r := OperDec(v);
      } else if op == Alu.OperInc {
        r := OperInc(v);
      } else if op == Alu.OperLsr {
        r := OperLsr(v);
      } else if op == Alu.OperRol {
        r := OperRol(v);
      } else if op == Alu.OperRor {
        r := OperRor(v);
      } else {
        r := v;
      }
    }

    /** `oper_alu` */
    method OperAlu(op: nat, a: byte, b: byte) returns (r: byte)
      modifies this`p, this`pAdj
      ensures (r, p, pAdj) == AluOp(old(p), old(pAdj), op, a, b)
    {
      if op == Alu.OperAdc {
        r := OperAdc(a, b);
      } else if op == Alu.OperSbc {
        r := OperSbc(a, b);
      } else {
        var t := Logic(p, pAdj, op, a, b);
        r, p := t.0, t.1;
      }
    }

    // -- the stack and branches (include/w65c02s.h:1130-1138, 1194-1205)

    /** `stack_push` */
    method StackPush(v: byte)
      requires Valid()
      modifies this`s, this`mem
      ensures Valid() && (s, mem) == PushStack(old(s), old(mem), v)
    {
      var addr := StackAddr(s);
      s := (s - 1) % 256;
      mem := mem[addr := v];
    }

    /** `stack_pull` */
    method StackPull() returns (r: byte)
      requires Valid()
      modifies this`s
      ensures (r, s) == PullStack(old(s), mem)
    {
      s := (s + 1) % 256;
      r := mem[StackAddr(s)];
    }

    /** `compute_branch`: the offset comes in `tr[0]`; the old PC goes to
        `tr[0..2]` and the target to `tr[2..4]`, low byte first. */
    method ComputeBranch()
      requires Valid()
      modifies tr
      ensures T16(tr[0], tr[1]) == pc
      ensures T16(tr[2], tr[3]) == BranchTarget(pc, old(tr[0]))
      ensures tr[4] == old(tr[4])
    {
      var offset := tr[0];
      var pcNew := BranchTarget(pc, offset);
      tr[0] := pc % 256;
      tr[1] := pc / 256;
      tr[2] := pcNew % 256;
      tr[3] := pcNew / 256;
    }

    // -- read operations (include/w65c02s.h:1207-1290)

    /** The switch shared by `oper_imm` and `oper_addr`: the read
        operation `oper` on the operand `v`; `imm` selects the immediate
        form of BIT. */
    method OperRead(v: byte, imm: bool) returns (penalty: bool)
      modifies this`a, this`x, this`y, this`p, this`pAdj
      ensures (Registers(), penalty) == ReadOp(oper, old(Registers()), v, imm)
    {
      if OperAnd <= oper <= Alu.OperSbc {
        a := OperAlu(oper, a, v);
        penalty := oper >= Alu.OperAdc && Has(p, FlagD);
      } else {
        penalty := false;
        if oper == Alu.OperCmp {
          OperCmp(a, v);
        } else if oper == OperCpx {
          OperCmp(x, v);
        } else if oper == OperCpy {
          OperCmp(y, v);
        } else if oper == Alu.OperBit && imm {
          OperBitImm(a, v);
        } else if oper == Alu.OperBit {
          OperBit(a, v);
        } else if oper == OperLda {
          a := MarkNz(v);
        } else if oper == OperLdx {
          x := MarkNz(v);
        } else if oper == OperLdy {
          y := MarkNz(v);
        }
      }
    }

    /** `oper_imm`: the operation `oper` on an immediate operand; stores
        never reach it and change nothing here. */
    method OperImm(v: byte) returns (penalty: bool)
      modifies this`a, this`x, this`y, this`p, this`pAdj
      ensures (Registers(), penalty) == ReadOp(oper, old(Registers()), v, true)
    {
      penalty := OperRead(v, true);
    }

    /** `oper_addr`: the operation `oper` on the byte at `addr`; a store
        writes A, X, Y or zero there instead. */
    method OperAddr(addr: word) returns (penalty: bool)
      requires Valid()
      modifies this`a, this`x, this`y, this`p, this`pAdj, this`mem
      ensures Valid()
      ensures OperIsStore(oper) ==>
        mem == old(mem)[addr := StoreValue(oper, old(Registers()))]
        && Registers() == old(Registers()) && !penalty
      ensures !OperIsStore(oper) ==>
        mem == old(mem) && (Registers(), penalty) == ReadOp(oper, old(Registers()), old(mem)[addr], false)
    {
      if OperIsStore(oper) {
        var m := mem[addr := StoreValue(oper, Registers())];
        mem, penalty := m, false;
      } else {
        penalty := OperRead(mem[addr], false);
      }
    }

    // -- interrupts (include/w65c02s.h:1140-1161, 2324-2373)

    /** `irq_update_mask` */
    method IrqUpdateMask()
      modifies this`intMask
      ensures intMask == UpdateMask(p)
    {
      intMask := if Has(p, FlagI) then !StateIrq else !0;
    }

    /** `irq_latch` */
    method IrqLatch()
      modifies this`cpuState
      ensures cpuState == Latch(old(cpuState), intTrig, intMask)
    {
      var st := cpuState | (intTrig & intMask);
      cpuState := st;
    }

    /** `irq_latch_slow` */
    method IrqLatchSlow()
      modifies this`cpuState
      ensures cpuState == LatchSlow(old(cpuState), intTrig, intMask)
    {
      cpuState := cpuState & !StateIrq;
      IrqLatch();
    }

    /** `irq_reset`: the first of RESET, NMI and IRQ being served is done. */
    method IrqReset()
      modifies this`inRst, this`inNmi, this`inIrq
      ensures old(inRst) ==> !inRst && inNmi == old(inNmi) && inIrq == old(inIrq)
      ensures !old(inRst) && old(inNmi) ==> !inRst && !inNmi && inIrq == old(inIrq)
      ensures !old(inRst) && !old(inNmi) ==> !inRst && !inNmi && !inIrq
    {
      if inRst {
        inRst := false;
      } else if inNmi {
        inNmi := false;
      } else if inIrq {
        inIrq := false;
      }
    }

    /** `w65c02s_decode` */
    method DecodeIr(ir: byte)
      modifies this`mode, this`oper
      ensures (mode, oper) == DecodeOp(ir)
    {
      DecodeRange(ir);
      mode := DecodeOp(ir).0;
      oper := DecodeOp(ir).1;
    }

    /** `handle_reset`: RESET is being served and nothing else; the run
        state becomes RUN without pending IRQ or NMI; A1 and B read 1. */
    method HandleReset()
      modifies this`inRst, this`inNmi, this`inIrq, this`cpuState, this`p
      ensures inRst && !inNmi && !inIrq
      ensures cpuState == Insert(old(cpuState), StateRun) & !StateNmi & !StateIrq
      ensures p == SetP(SetP(old(p), FlagA1, true), FlagB, true)
    {
      var st := Insert(cpuState, StateRun);
      st := st & !StateNmi;
      st := st & !StateIrq;
      var q := SetP(p, FlagA1, true);
      q := SetP(q, FlagB, true);
      inRst, inNmi, inIrq, cpuState, p := true, false, false, st, q;
    }

    /** `handle_nmi`: the NMI is being served and its line and pending bit
        are cleared. */
    method HandleNmi()
      modifies this`inNmi, this`intTrig, this`cpuState
      ensures inNmi
      ensures intTrig == old(intTrig) & !StateNmi && cpuState == old(cpuState) & !StateNmi
    {
      var t, st := intTrig & !StateNmi, cpuState & !StateNmi;
      inNmi, intTrig, cpuState := true, t, st;
    }

    /** `handle_irq`: the IRQ is being served and its pending bit is
        cleared; the line stays as it is. */
    method HandleIrq()
      modifies this`inIrq, this`cpuState
      ensures inIrq && cpuState == old(cpuState) & !StateIrq
    {
      var st := cpuState & !StateIrq;
      inIrq, cpuState := true, st;
    }

    /** `handle_interrupt`: serves the interrupt `Pending` finds and makes
        BRK (opcode 0) the next instruction; returns whether there was one. */
    method HandleInterrupt() returns (served: bool)
      modifies this`inRst, this`inNmi, this`inIrq, this`cpuState, this`intTrig, this`p
      modifies this`mode, this`oper
      ensures served <==> Pending(old(cpuState)) != NoInterrupt
      ensures (cpuState, intTrig) == Serve(old(cpuState), old(intTrig))
      ensures served ==> (mode, oper) == (ModeStackBrk, OperBrk)
      ensures !served ==> mode == old(mode) && oper == old(oper)
      ensures Pending(old(cpuState)) == ResetInterrupt ==> inRst && !inNmi && !inIrq
      ensures Pending(old(cpuState)) == NmiInterrupt ==> inNmi && inRst == old(inRst) && inIrq == old(inIrq)
      ensures Pending(old(cpuState)) == IrqInterrupt ==> inIrq && inRst == old(inRst) && inNmi == old(inNmi)
      ensures Pending(old(cpuState)) == ResetInterrupt ==> p == SetP(SetP(old(p), FlagA1, true), FlagB, true)
      ensures Pending(old(cpuState)) != ResetInterrupt ==> p == old(p)
    {
      if Extract(cpuState) == StateReset {
        HandleReset();
      } else if HasState(cpuState, StateNmi) {
        HandleNmi();
      } else if HasState(cpuState, StateIrq) {
        HandleIrq();
      } else {
        return false;
      }
      DecodeZeroIsBrk();
      DecodeIr(0);
      served := true;
    }

    // -- the API (include/w65c02s.h:2652-2676, 2752-2779)

    /** `w65c02s_nmi` */
    method Nmi()
      modifies this`cpuState, this`intTrig
      ensures (cpuState, intTrig) == NmiSignal(old(cpuState), old(intTrig))
    {
      var t, st := intTrig | StateNmi, cpuState;
      if Extract(st) == StateWait {
        st := Insert(st, StateRun);
        st := st | StateNmi;
      }
      intTrig, cpuState := t, st;
    }

    /** `w65c02s_reset` */
    method Reset()
      modifies this`cpuState
      ensures cpuState == ResetSignal(old(cpuState))
    {
      var st := Insert(cpuState, StateReset);
      st := st & !StateIrq;
      st := st & !StateNmi;
      cpuState := st;
    }

    /** `w65c02s_irq` */
    method Irq()
      modifies this`cpuState, this`intTrig
      ensures (cpuState, intTrig) == IrqSignal(old(cpuState), old(intTrig), intMask)
    {
      var t, st := intTrig | StateIrq, cpuState;
      if Extract(st) == StateWait {
        st := Insert(st, StateRun);
        st := st | (StateIrq & intMask);
      }
      intTrig, cpuState := t, st;
    }

    /** `w65c02s_irq_cancel` */
    method IrqCancel()
      modifies this`intTrig
      ensures intTrig == IrqCancelTrig(old(intTrig))
    {
      intTrig := intTrig & !StateIrq;
    }

    /** `w65c02s_reg_get_p`: P with A1 and B reading 1. */
    function RegGetP(): (r: bv8)
      reads this
      ensures Has(r, FlagA1) && Has(r, FlagB) && Outside(r, p, FlagA1 | FlagB)
    {
      p | FlagA1 | FlagB
    }

    /** `w65c02s_reg_set_p`: A1 and B are forced to 1 and the IRQ mask
        follows the new I flag. */
    method RegSetP(v: bv8)
      modifies this`p, this`intMask
      ensures Has(p, FlagA1) && Has(p, FlagB) && Outside(p, v, FlagA1 | FlagB)
      ensures intMask == UpdateMask(p) && RegGetP() == p
    {
      p := v | FlagA1 | FlagB;
      IrqUpdateMask();
    }
  }
}
