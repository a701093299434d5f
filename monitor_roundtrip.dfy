/**
 * The monitor's assembler against its disassembler (test/monitor.c:205-816
 * against 817-1226). For every table, a line the assembler accepts is an
 * instruction of the row its three letters spell, written in one of the
 * forms that row's encoder can emit (an opcode and its number of operand
 * bytes). For the CPX and CPY rows, with their masks corrected, the
 * disassembler names every such form with the row's mnemonic and steps over
 * as many operand bytes as the assembler wrote; the other rows are not
 * compared with the disassembler. The section ends with the inputs on which
 * the code as written goes wrong.
 */
module MonitorRoundTrip {
  import opened MonitorText
  import opened MonitorDisasm
  import opened MonitorEncode

  /** An opcode the disassembler names with a row's three letters. */
  predicate Names(op: byte, e: AsmOpcode) {
    var m := Mnemonic(op);
    |m| >= 3 && m[0] == e.c0 && m[1] == e.c1 && m[2] == e.c2
  }

  /** The forms a row's encoder can emit: each opcode with the number of
      operand bytes that follow it. */
  function Forms(e: AsmOpcode): seq<(byte, nat)> {
    var m := e.mask;
    match e.mode
    case OneMode => [(m, 0)]
    case AluMode =>
      [(Or(m, 0x09), 1), (Or(m, 0x11), 1), (Or(m, 0x01), 1), (Or(m, 0x12), 1), (Or(m, 0x19), 2)] +
      Widths(Or(m, 0x0D), Or(m, 0x05))
    case RmwMode => [(Or(m, 0x0A), 0)] + Widths(Or(m, 0x0E), Or(m, 0x06))
    case RmwIncMode => [(0x1A, 0)] + Widths(Or(m, 0x0E), Or(m, 0x06))
    case RmwDecMode => [(0x3A, 0)] + Widths(Or(m, 0x0E), Or(m, 0x06))
    case RmbMode => BitForms(m, 1)
    case BbrMode => BitForms(m, 2)
    case BraMode => [(m, 1)]
    case BitMode => [(0x89, 1)] + Widths(0x2C, 0x24)
    case CpxMode => [(m, 1), (Or(m, 0x0C), 2), (Or(m, 0x04), 1)]
    case LdxMode => [(0xA2, 1)] + Widths(0xAE, 0xA6)
    case LdyMode => [(0xA0, 1)] + Widths(0xAC, 0xA4)
    case StaMode => [(0x91, 1), (0x81, 1), (0x92, 1), (0x99, 2)] + Widths(0x8D, 0x85)
    case StxMode => [(0x96, 1), (0x8E, 2), (0x86, 1)]
    case StyMode => [(0x94, 1), (0x8C, 2), (0x84, 1)]
    case StzMode => [(Or(0x9C, 0x02), 2), (Or(0x9C, 0x00), 2), (Or(0x64, 0x00), 1), (Or(0x64, 0x10), 1)]
    case TsbMode => [(Or(m, 0x0C), 2), (Or(m, 0x04), 1)]
    case JmpMode => [(0x7C, 2), (0x6C, 2), (0x4C, 2)]
    case JsrMode => [(0x20, 2)]
    case BrkMode => [(0x00, 1)]
  }

  /** Absolute and zero page, each plain or with the 0x10 of `,X`/`,Y`. */
  function Widths(abs: byte, zp: byte): seq<(byte, nat)> {
    [(Or(abs, 0x00), 2), (Or(abs, 0x10), 2), (Or(zp, 0x00), 1), (Or(zp, 0x10), 1)]
  }

  /** The eight bit numbers of RMB/SMB/BBR/BBS. */
  function BitForms(m: byte, len: nat): (r: seq<(byte, nat)>)
    ensures |r| == 8
  {
    seq(8, d requires 0 <= d < 8 => (BitOpcode(m, d), len))
  }

  /** The form an encoding takes. */
  function FormOf(enc: Encoding): (byte, nat)
    requires |enc.bytes| >= 1
  {
    (enc.bytes[0], |enc.bytes| - 1)
  }

  /** A zero-page or absolute encoding is one of the four widths. */
  lemma SizedForm(a: word, abs: byte, zp: byte, x: byte)
    requires x == 0x00 || x == 0x10
    ensures |Sized(a, Or(abs, x), Or(zp, x))| >= 1
    ensures FormOf(Encoding(Sized(a, Or(abs, x), Or(zp, x)), 0)) in Widths(abs, zp)
  {
  }

  /** `prune` stops where it stops. */
  lemma SkipSpaceTwice(s: string, i: nat)
    ensures SkipSpace(s, SkipSpace(s, i)) == SkipSpace(s, i)
  {
  }

  /** A successful encoder emits one of its row's forms. */
  lemma EncodeForms(e: AsmOpcode, s: string, i: nat)
    requires Encode(e, s, i).result >= 0
    ensures |Encode(e, s, i).bytes| >= 1 && FormOf(Encode(e, s, i)) in Forms(e)
  {
    if e.mode.OneMode? || e.mode.BraMode? || e.mode.StxMode? || e.mode.StyMode? || e.mode.JmpMode? || e.mode.JsrMode? || e.mode.BrkMode? {
      SimpleForms(e, s, i);
    } else if e.mode.AluMode? || e.mode.RmwMode? || e.mode.RmwIncMode? || e.mode.RmwDecMode? || e.mode.RmbMode? || e.mode.BbrMode? {
      ReadModifyForms(e, s, i);
    } else if e.mode.BitMode? || e.mode.CpxMode? || e.mode.LdxMode? || e.mode.LdyMode? {
      CompareLoadForms(e, s, i);
    } else {
      StoreForms(e, s, i);
    }
  }

  /** Encoders with a single form or no operand arithmetic. */
  lemma SimpleForms(e: AsmOpcode, s: string, i: nat)
    requires e.mode.OneMode? || e.mode.BraMode? || e.mode.StxMode? || e.mode.StyMode? || e.mode.JmpMode? || e.mode.JsrMode? || e.mode.BrkMode?
    requires Encode(e, s, i).result >= 0
    ensures |Encode(e, s, i).bytes| >= 1 && FormOf(Encode(e, s, i)) in Forms(e)
  {
    var m := e.mask;
    match e.mode
    case OneMode =>
      assert Forms(e) == [(m, 0)];
      assert Encode(e, s, i) == One(m);
    case BraMode =>
      assert Forms(e) == [(m, 1)];
      assert Encode(e, s, i) == Bra(s, i, m);
    case StxMode =>
      assert Forms(e) == [(0x96, 1), (0x8E, 2), (0x86, 1)];
      assert Encode(e, s, i) == Stx(s, i);
      StxForms(s, i);
    case StyMode =>
      assert Forms(e) == [(0x94, 1), (0x8C, 2), (0x84, 1)];
      assert Encode(e, s, i) == Sty(s, i);
      StyForms(s, i);
    case JmpMode =>
      assert Forms(e) == [(0x7C, 2), (0x6C, 2), (0x4C, 2)];
      assert Encode(e, s, i) == Jmp(s, i);
      JmpForms(s, i);
    case JsrMode =>
      assert Forms(e) == [(0x20, 2)];
      assert Encode(e, s, i) == Jsr(s, i);
    case BrkMode =>
      assert Forms(e) == [(0x00, 1)];
      assert Encode(e, s, i) == Brk(s, i);
  }

  /** The ALU, read-modify-write and bit encoders. */
  lemma ReadModifyForms(e: AsmOpcode, s: string, i: nat)
    requires e.mode.AluMode? || e.mode.RmwMode? || e.mode.RmwIncMode? || e.mode.RmwDecMode? || e.mode.RmbMode? || e.mode.BbrMode?
    requires Encode(e, s, i).result >= 0
    ensures |Encode(e, s, i).bytes| >= 1 && FormOf(Encode(e, s, i)) in Forms(e)
  {
    var m := e.mask;
    match e.mode
    case AluMode =>
      assert Forms(e) == [(Or(m, 0x09), 1), (Or(m, 0x11), 1), (Or(m, 0x01), 1), (Or(m, 0x12), 1), (Or(m, 0x19), 2)] + Widths(Or(m, 0x0D), Or(m, 0x05));
      assert Encode(e, s, i) == Alu(s, i, m);
      AluForms(s, i, m);
    case RmwMode =>
      assert Forms(e) == [(Or(m, 0x0A), 0)] + Widths(Or(m, 0x0E), Or(m, 0x06));
      assert Encode(e, s, i) == Rmw(s, i, m);
      RmwForms(s, i, m);
    case RmwIncMode =>
      assert Forms(e) == [(0x1A, 0)] + Widths(Or(m, 0x0E), Or(m, 0x06));
      assert Encode(e, s, i) == RmwOwn(s, i, m, 0x1A);
      RmwOwnForms(s, i, m, 0x1A);
    case RmwDecMode =>
      assert Forms(e) == [(0x3A, 0)] + Widths(Or(m, 0x0E), Or(m, 0x06));
      assert Encode(e, s, i) == RmwOwn(s, i, m, 0x3A);
      RmwOwnForms(s, i, m, 0x3A);
    case RmbMode =>
      assert Forms(e) == BitForms(m, 1);
      assert Encode(e, s, i) == Rmb(s, i, m);
      RmbForms(s, i, m);
    case BbrMode =>
      assert Forms(e) == BitForms(m, 2);
      assert Encode(e, s, i) == Bbr(s, i, m);
      BbrForms(s, i, m);
  }

  /** The BIT, compare and load encoders. */
  lemma CompareLoadForms(e: AsmOpcode, s: string, i: nat)
    requires e.mode.BitMode? || e.mode.CpxMode? || e.mode.LdxMode? || e.mode.LdyMode?
    requires Encode(e, s, i).result >= 0
    ensures |Encode(e, s, i).bytes| >= 1 && FormOf(Encode(e, s, i)) in Forms(e)
  {
    var m := e.mask;
    match e.mode
    case BitMode =>
      assert Encode(e, s, i) == Bit(s, i);
      BitModeForms(s, i);
    case CpxMode =>
      assert Encode(e, s, i) == Cpx(s, i, m);
      CpxForms(s, i, m);
    case LdxMode =>
      assert Encode(e, s, i) == Ldx(s, i);
      LdxForms(s, i);
    case LdyMode =>
      assert Encode(e, s, i) == Ldy(s, i);
      LdyForms(s, i);
  }

  /** The store and test-and-set encoders. */
  lemma StoreForms(e: AsmOpcode, s: string, i: nat)
    requires e.mode.StaMode? || e.mode.StzMode? || e.mode.TsbMode?
    requires Encode(e, s, i).result >= 0
    ensures |Encode(e, s, i).bytes| >= 1 && FormOf(Encode(e, s, i)) in Forms(e)
  {
    var m := e.mask;
    match e.mode
    case StaMode =>
      assert Encode(e, s, i) == Sta(s, i);
      StaForms(s, i);
    case StzMode =>
      assert Encode(e, s, i) == Stz(s, i);
      StzForms(s, i);
    case TsbMode =>
      assert Encode(e, s, i) == Tsb(s, i, m);
      TsbForms(s, i, m);
  }

  /** `#value` takes one operand byte. */
  lemma ImmediateForm(s: string, i: nat, op: byte)
    requires Immediate(s, i, op).result >= 0
    ensures FormOf(Immediate(s, i, op)) == (op, 1)
  {
  }

  /** The indirect modes take one operand byte. */
  lemma IndirectForm(s: string, i: nat, opY: byte, opX: byte, opZp: byte)
    requires Indirect(s, i, opY, opX, opZp).result >= 0
    ensures FormOf(Indirect(s, i, opY, opX, opZp)) in [(opY, 1), (opX, 1), (opZp, 1)]
  {
  }

  lemma AluForms(s: string, i: nat, m: byte)
    requires Alu(s, i, m).result >= 0
    ensures |Alu(s, i, m).bytes| >= 1
    ensures FormOf(Alu(s, i, m)) in [(Or(m, 0x09), 1), (Or(m, 0x11), 1), (Or(m, 0x01), 1), (Or(m, 0x12), 1), (Or(m, 0x19), 2)] + Widths(Or(m, 0x0D), Or(m, 0x05))
  {
    if At(s, i) == '#' {
      ImmediateForm(s, i, Or(m, 0x09));
    } else if At(s, i) == '(' {
      IndirectForm(s, i, Or(m, 0x11), Or(m, 0x01), Or(m, 0x12));
    } else {
      var r := Address(s, i, true, true).value;
      if r.1 != IndexY {
        SizedForm(r.0, Or(m, 0x0D), Or(m, 0x05), XBit(r.1));
      }
    }
  }

  lemma RmwForms(s: string, i: nat, m: byte)
    requires Rmw(s, i, m).result >= 0
    ensures |Rmw(s, i, m).bytes| >= 1
    ensures FormOf(Rmw(s, i, m)) in [(Or(m, 0x0A), 0)] + Widths(Or(m, 0x0E), Or(m, 0x06))
  {
    var j := SkipSpace(s, i);
    if !Accumulator(s, j) {
      var r := Address(s, j, true, false).value;
      SizedForm(r.0, Or(m, 0x0E), Or(m, 0x06), XBit(r.1));
    }
  }

  /** INC and DEC: past the accumulator test, `asm_rmw` never takes the
      accumulator form, since white space is already skipped. */
  lemma RmwOwnForms(s: string, i: nat, m: byte, acc: byte)
    requires RmwOwn(s, i, m, acc).result >= 0
    ensures |RmwOwn(s, i, m, acc).bytes| >= 1
    ensures FormOf(RmwOwn(s, i, m, acc)) in [(acc, 0)] + Widths(Or(m, 0x0E), Or(m, 0x06))
  {
    var j := SkipSpace(s, i);
    if !Accumulator(s, j) {
      SkipSpaceTwice(s, i);
      var r := Address(s, j, true, false).value;
      SizedForm(r.0, Or(m, 0x0E), Or(m, 0x06), XBit(r.1));
    }
  }

  lemma RmbForms(s: string, i: nat, m: byte)
    requires Rmb(s, i, m).result >= 0
    ensures |Rmb(s, i, m).bytes| >= 1 && FormOf(Rmb(s, i, m)) in BitForms(m, 1)
  {
    var d := OctToDec(At(s, i));
    OctToDecValue(At(s, i));
    assert BitForms(m, 1)[d] == FormOf(Rmb(s, i, m));
  }

  lemma BbrForms(s: string, i: nat, m: byte)
    requires Bbr(s, i, m).result >= 0
    ensures |Bbr(s, i, m).bytes| >= 1 && FormOf(Bbr(s, i, m)) in BitForms(m, 2)
  {
    var d := OctToDec(At(s, i));
    OctToDecValue(At(s, i));
    assert BitForms(m, 2)[d] == FormOf(Bbr(s, i, m));
  }

  lemma BitModeForms(s: string, i: nat)
    requires Bit(s, i).result >= 0
    ensures |Bit(s, i).bytes| >= 1 && FormOf(Bit(s, i)) in [(0x89, 1)] + Widths(0x2C, 0x24)
  {
    if At(s, i) != '#' {
      var r := Address(s, i, true, false).value;
      SizedForm(r.0, 0x2C, 0x24, XBit(r.1));
    }
  }

  lemma CpxForms(s: string, i: nat, m: byte)
    requires Cpx(s, i, m).result >= 0
    ensures |Cpx(s, i, m).bytes| >= 1
    ensures FormOf(Cpx(s, i, m)) in [(m, 1), (Or(m, 0x0C), 2), (Or(m, 0x04), 1)]
  {
  }

  lemma LdxForms(s: string, i: nat)
    requires Ldx(s, i).result >= 0
    ensures |Ldx(s, i).bytes| >= 1 && FormOf(Ldx(s, i)) in [(0xA2, 1)] + Widths(0xAE, 0xA6)
  {
    if At(s, i) != '#' {
      var r := Address(s, i, false, true).value;
      SizedForm(r.0, 0xAE, 0xA6, YBit(r.1));
    }
  }

  lemma LdyForms(s: string, i: nat)
    requires Ldy(s, i).result >= 0
    ensures |Ldy(s, i).bytes| >= 1 && FormOf(Ldy(s, i)) in [(0xA0, 1)] + Widths(0xAC, 0xA4)
  {
    if At(s, i) != '#' {
      var r := Address(s, i, true, false).value;
      SizedForm(r.0, 0xAC, 0xA4, XBit(r.1));
    }
  }

  lemma StaForms(s: string, i: nat)
    requires Sta(s, i).result >= 0
    ensures |Sta(s, i).bytes| >= 1
    ensures FormOf(Sta(s, i)) in [(0x91, 1), (0x81, 1), (0x92, 1), (0x99, 2)] + Widths(0x8D, 0x85)
  {
    if At(s, i) == '(' {
      IndirectForm(s, i, 0x91, 0x81, 0x92);
    } else {
      var r := Address(s, i, true, true).value;
      if r.1 != IndexY {
        SizedForm(r.0, 0x8D, 0x85, XBit(r.1));
      }
    }
  }

  lemma StzForms(s: string, i: nat)
    requires Stz(s, i).result >= 0
    ensures |Stz(s, i).bytes| >= 1
    ensures FormOf(Stz(s, i)) in [(Or(0x9C, 0x02), 2), (Or(0x9C, 0x00), 2), (Or(0x64, 0x00), 1), (Or(0x64, 0x10), 1)]
  {
  }

  lemma TsbForms(s: string, i: nat, m: byte)
    requires Tsb(s, i, m).result >= 0
    ensures |Tsb(s, i, m).bytes| >= 1
    ensures FormOf(Tsb(s, i, m)) in [(Or(m, 0x0C), 2), (Or(m, 0x04), 1)]
  {
  }

  lemma StxForms(s: string, i: nat)
    requires Stx(s, i).result >= 0
    ensures |Stx(s, i).bytes| >= 1 && FormOf(Stx(s, i)) in [(0x96, 1), (0x8E, 2), (0x86, 1)]
  {
  }

  lemma StyForms(s: string, i: nat)
    requires Sty(s, i).result >= 0
    ensures |Sty(s, i).bytes| >= 1 && FormOf(Sty(s, i)) in [(0x94, 1), (0x8C, 2), (0x84, 1)]
  {
  }

  lemma JmpForms(s: string, i: nat)
    requires Jmp(s, i).result >= 0
    ensures |Jmp(s, i).bytes| >= 1 && FormOf(Jmp(s, i)) in [(0x7C, 2), (0x6C, 2), (0x4C, 2)]
  {
  }

  // ---------------------------------------------------------------------
  // The table against the disassembler

  /** The disassembler reads a form back: it names the row's mnemonic and
      steps over the form's operand bytes. */
  predicate ReadsBack(e: AsmOpcode, op: byte, len: nat) {
    Names(op, e) && OperandLength(ModeOf(op)) == len
  }

  /** A line assembles to what its encoder pushed, once the encoder
      succeeds. */
  lemma AcceptAssembled(s: string, k: nat, enc: Encoding, b: seq<byte>)
    requires Accept(s, k, enc) == Assembled(b)
    ensures enc.result >= 0 && b == enc.bytes
  {
  }

  /** A line that a table assembles is an instruction of the row its
      three letters spell, in one of that row's forms. */
  lemma AssembledIsAForm(t: seq<AsmOpcode>, s: string, b: seq<byte>)
    requires Assemble(t, s) == Assembled(b)
    ensures Recognize(t, s).Instruction?
    ensures var e := Corrected(t[Recognize(t, s).row]);
      e.Id() == Mnemonic3(s, SkipSpace(s, 0)) && 1 <= |b| <= MaxInstr && (b[0], |b| - 1) in Forms(e)
  {
    var st := Recognize(t, s);
    var e := Corrected(t[st.row]);
    var enc := Encode(e, s, st.operand);
    assert Accept(s, st.operand, enc) == Assembled(b);
    AcceptAssembled(s, st.operand, enc, b);
    EncodeForms(e, s, st.operand);
    assert FormOf(enc) == (b[0], |b| - 1);
  }

  // ---------------------------------------------------------------------
  // The code as written

  /** What the disassembler calls the opcodes below. */
  lemma DisassemblerNames()
    ensures Mnemonic(0xCC) == "CPY" && Mnemonic(0xEC) == "CPX" && Mnemonic(0xE0) == "CPX"
    ensures Mnemonic(0x0F) == "BBR0" && Mnemonic(0x17) == "RMB1"
    ensures Mnemonic(0x0A) == "ASL" && Mnemonic(0xA1) == "LDA"
  {
  }

  /** The rows the examples below use. */
  lemma Rows()
    ensures Entry(2) == AsmOpcode('A', 'S', 'L', 0x00, RmwMode)
    ensures Entry(21) == AsmOpcode('C', 'P', 'X', 0xC0, CpxMode)
    ensures Entry(22) == AsmOpcode('C', 'P', 'Y', 0xE0, CpxMode)
    ensures Entry(32) == AsmOpcode('L', 'D', 'A', 0xA0, AluMode)
    ensures Entry(46) == AsmOpcode('R', 'M', 'B', 0x07, RmbMode)
  {
  }

  /** With the table's mask for CPX, 0xC0, `asm_cpx` as written assembles
      `CPX #$10` to 0xCC, CPY's absolute opcode. */
  lemma CompareImmediateAsWritten()
    ensures CpxAsWritten("CPX #$10", 4, 0xC0) == Encoding([0xCC, 0x10], 4)
  {
    assert ReadAddress("CPX #$10", 5) == Some((0x10, 8));
    assert Or(0xC0, 0x0C) == 0xCC;
  }

  /** With the table's mask for CPY, 0xE0, `asm_cpx` as written assembles
      the absolute `CPY $1234` to 0xEC, CPX's absolute opcode. */
  lemma CompareAbsoluteAsWritten()
    ensures CpxAsWritten("CPY $1234", 4, 0xE0).bytes == [0xEC, 0x34, 0x12]
    ensures CpxAsWritten("CPY $1234", 4, 0xE0).result == 5
  {
    Read1234();
  }

  lemma Read1234()
    ensures ReadAddress("CPY $1234", 4) == Some((0x1234, 9))
  {
    var s := "CPY $1234";
    assert SkipSpace(s, 4) == 4;
    HexEndAt(s, 5, 9);
    HexValueStep(s, 5, 5, 0, 1);
    HexValueStep(s, 5, 6, 1, 2);
    HexValueStep(s, 5, 7, 0x12, 3);
    HexValueStep(s, 5, 8, 0x123, 4);
  }

  /** With CPX's corrected mask, 0xE0, `CPX #$10` assembles to 0xE0, CPX's
      immediate opcode. */
  lemma CompareImmediate()
    ensures Corrected(AsmOpcode('C', 'P', 'X', 0xC0, CpxMode)).mask == 0xE0
    ensures Cpx("CPX #$10", 4, 0xE0) == Encoding([0xE0, 0x10], 4)
  {
    assert ReadAddress("CPX #$10", 5) == Some((0x10, 8));
  }

  /** With the corrected masks every form of CPX and CPY reads back as the
      register the line named. */
  lemma CompareReadsBack(k: nat, op: byte, len: nat)
    requires (k == 21 || k == 22) && (op, len) in Forms(Corrected(Entry(k)))
    ensures ReadsBack(Corrected(Entry(k)), op, len)
  {
    Rows();
    if k == 21 {
      CompareRow(AsmOpcode('C', 'P', 'X', 0xE0, CpxMode), 0xEC, 0xE4, op, len);
    } else {
      CompareRow(AsmOpcode('C', 'P', 'Y', 0xC0, CpxMode), 0xCC, 0xC4, op, len);
    }
  }

  /** A compare row whose three opcodes the disassembler names with the
      row's letters and reads with the right operand lengths reads back in
      each of its forms. */
  lemma CompareRow(e: AsmOpcode, abs: byte, zp: byte, op: byte, len: nat)
    requires (e == AsmOpcode('C', 'P', 'X', 0xE0, CpxMode) && (abs, zp) == (0xEC, 0xE4))
      || (e == AsmOpcode('C', 'P', 'Y', 0xC0, CpxMode) && (abs, zp) == (0xCC, 0xC4))
    requires (op, len) in Forms(e)
    ensures ReadsBack(e, op, len)
  {
    CompareMasks();
    assert Forms(e) == [(e.mask, 1), (abs, 2), (zp, 1)];
    CompareOpcodes(e.mask, abs, zp, e.Id());
  }

  /** The masks of CPX and CPY with the absolute and zero-page bits. */
  lemma CompareMasks()
    ensures Or(0xE0, 0x0C) == 0xEC && Or(0xE0, 0x04) == 0xE4
    ensures Or(0xC0, 0x0C) == 0xCC && Or(0xC0, 0x04) == 0xC4
  {
  }

  /** What the disassembler makes of the immediate, absolute and zero-page
      opcodes of CPX and of CPY. */
  lemma CompareOpcodes(imm: byte, abs: byte, zp: byte, name: string)
    requires (imm, abs, zp, name) == (0xE0, 0xEC, 0xE4, "CPX") || (imm, abs, zp, name) == (0xC0, 0xCC, 0xC4, "CPY")
    ensures Mnemonic(imm) == name && Mnemonic(abs) == name && Mnemonic(zp) == name
    ensures OperandLength(ModeOf(imm)) == 1 && OperandLength(ModeOf(abs)) == 2 && OperandLength(ModeOf(zp)) == 1
  {
  }

  /** `RMB1` as written shifts the bit number by three instead of four and
      lands on 0x0F, the opcode of `BBR0`. */
  lemma BitNumberAsWritten()
    ensures RmbAsWritten("RMB1 $12", 3, 0x07) == Encoding([0x0F, 0x12], 5)
  {
    assert SkipSpace("RMB1 $12", 4) == 5;
    assert ReadAddress("RMB1 $12", 5) == Some((0x12, 8));
    assert OctToDec('1') == 1;
    assert BitOpcodeAsWritten(0x07, 1) == 0x0F;
  }

  /** With the corrected shift `RMB1` assembles to 0x17, the opcode of
      `RMB1`. */
  lemma BitNumber()
    ensures Rmb("RMB1 $12", 3, 0x07) == Encoding([0x17, 0x12], 5)
  {
    assert SkipSpace("RMB1 $12", 4) == 5;
    assert ReadAddress("RMB1 $12", 5) == Some((0x12, 8));
    assert OctToDec('1') == 1;
    assert BitOpcode(0x07, 1) == 0x17;
  }

  /** The operands of `BBR2 $12,$34`, read after the bit number. */
  lemma BranchOperands()
    ensures BbrOperands("BBR2 $12,$34", 4) == Some((0x12, 0x34, 12))
  {
    var s := "BBR2 $12,$34";
    assert SkipSpace(s, 4) == 5;
    BranchFirst();
    assert SkipSpace(s, 8) == 8;
    BranchSecond();
  }

  /** The zero-page operand of `BBR2 $12,$34`. */
  lemma BranchFirst()
    ensures ReadAddress("BBR2 $12,$34", 5) == Some((0x12, 8))
  {
    var s := "BBR2 $12,$34";
    assert SkipSpace(s, 5) == 5 && SkipSpace(s, 6) == 6;
    HexEndAt(s, 6, 8);
    HexValueStep(s, 6, 6, 0, 1);
    HexValueStep(s, 6, 7, 1, 2);
  }

  /** The branch target of `BBR2 $12,$34`. */
  lemma BranchSecond()
    ensures ReadAddress("BBR2 $12,$34", SkipSpace("BBR2 $12,$34", 9)) == Some((0x34, 12))
  {
    var s := "BBR2 $12,$34";
    assert SkipSpace(s, 9) == 9 && SkipSpace(s, 10) == 10;
    HexEndAt(s, 10, 12);
    HexValueStep(s, 10, 10, 0, 3);
    HexValueStep(s, 10, 11, 3, 4);
  }

  /** Bit 2 in the `BBR` row's opcode, shifted by three and by four. */
  lemma BranchBitOpcodes()
    ensures BitOpcodeAsWritten(0x0F, 2) == 0x1F && BitOpcode(0x0F, 2) == 0x2F
    ensures Lo(0x12) == 0x12 && Lo(0x34) == 0x34
  {
  }

  /** `asm_bbr`, as written and corrected, on a line whose bit number and
      operands are known. */
  lemma BranchEncodes(s: string, i: nat, mask: byte, d: int, zp: word, target: word, end: nat)
    requires OctToDec(At(s, i)) == d && 0 <= d < 8
    requires BbrOperands(s, i + 1) == Some((zp, target, end)) && i <= end
    ensures BbrAsWritten(s, i, mask) == Encoding([BitOpcodeAsWritten(mask, d), Lo(zp), Lo(target)], end - i)
    ensures Bbr(s, i, mask) == Encoding([BitOpcode(mask, d), Lo(zp), Lo(target)], end - i)
  {
  }

  /** `BBR2` as written lands on 0x1F, the opcode of `BBR1`: `asm_bbr`
      shifts the bit number by three, as `asm_rmb` does. */
  lemma BranchBitNumberAsWritten()
    ensures BbrAsWritten("BBR2 $12,$34", 3, 0x0F) == Encoding([0x1F, 0x12, 0x34], 9)
  {
    assert OctToDec(At("BBR2 $12,$34", 3)) == 2;
    BranchOperands();
    BranchBitOpcodes();
    BranchEncodes("BBR2 $12,$34", 3, 0x0F, 2, 0x12, 0x34, 12);
  }

  /** With the corrected shift `BBR2` assembles to 0x2F, the opcode of
      `BBR2`. */
  lemma BranchBitNumber()
    ensures Bbr("BBR2 $12,$34", 3, 0x0F) == Encoding([0x2F, 0x12, 0x34], 9)
  {
    assert OctToDec(At("BBR2 $12,$34", 3)) == 2;
    BranchOperands();
    BranchBitOpcodes();
    BranchEncodes("BBR2 $12,$34", 3, 0x0F, 2, 0x12, 0x34, 12);
  }

  /** `asm_rmw` as written leaves the `A` of an accumulator operand unread,
      so the trailing-text check rejects `ASL A`, `ROL a` and the like; the
      corrected encoder steps past it and the line is accepted. */
  lemma AccumulatorOperand(s: string, i: nat, m: byte)
    requires ToUpper(At(s, SkipSpace(s, i))) == 'A'
    requires At(s, SkipSpace(s, SkipSpace(s, i) + 1)) == '\0'
    ensures Accept(s, i, Rmw(s, i, m)) == Assembled([Or(m, 0x0A)])
    ensures Accept(s, i, RmwAsWritten(s, i, m)) == LineError
  {
    SkipSpaceTwice(s, i);
  }

  /** The same for INC and DEC, whose accumulator forms have opcodes of
      their own. */
  lemma AccumulatorOperandOwn(s: string, i: nat, m: byte, acc: byte)
    requires ToUpper(At(s, SkipSpace(s, i))) == 'A'
    requires At(s, SkipSpace(s, SkipSpace(s, i) + 1)) == '\0'
    ensures Accept(s, i, RmwOwn(s, i, m, acc)) == Assembled([acc])
    ensures Accept(s, i, RmwOwnAsWritten(s, i, m, acc)) == LineError
  {
    SkipSpaceTwice(s, i);
  }

  /** The result of an encoder sits in an `unsigned`, so `if (i < 0)` never
      fires: no result, however negative, is caught. */
  lemma NeverCaught(result: int)
    ensures !CaughtAsWritten(result)
  {
  }

  /** `LDA ($12,X` lacks its closing parenthesis, so `asm_alu` fails after
      pushing the opcode and operand. */
  lemma MissingParenthesis()
    ensures Alu("LDA ($12,X", 4, 0xA0) == Encoding([0xA1, 0x12], -1)
  {
    var s := "LDA ($12,X";
    assert ReadAddress(s, 5) == Some((0x12, 8));
    assert SkipSpace(s, 8) == 8;
    assert Suffix(s, 8, true, true) == (IndexX, 10);
    assert SkipSpace(s, 10) == 10;
    assert Or(0xA0, 0x01) == 0xA1;
  }

  /** The corrected check rejects that line; as written the failure goes
      unnoticed and the two bytes are kept. */
  lemma UncaughtFailure()
    ensures Accept("LDA ($12,X", 4, Encoding([0xA1, 0x12], -1)) == LineError
    ensures AcceptAsWritten("LDA ($12,X", 4, Encoding([0xA1, 0x12], -1)) == Assembled([0xA1, 0x12])
  {
    var far := 4 + -1 % 0x1_0000_0000;
    assert SkipSpace("LDA ($12,X", far) == far;
  }
}
