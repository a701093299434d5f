/**
 * The monitor's mini-assembler (test/monitor.c:205-815) as functions: what
 * each `asm_*` encoder pushes into `asm_instr` and returns, the opcode
 * table and its lookup, and what one line of `doassemble` makes of its
 * input. The imperative encoders in MonitorAsm are proved against these.
 *
 * An encoder starts at cursor `i` of the line and returns how far it read
 * (`s - so`), or -1. Where the source mis-encodes, the functions here are
 * the corrected encoders; the forms as written end in `AsWritten`.
 */
module MonitorEncode {
  import opened MonitorText

  /** `sizeof(asm_instr)` */
  const InstrSize := 8

  /** The longest instruction any encoder emits. */
  const MaxInstr := 3

  /** Bitwise OR of two bytes, as the encoders combine opcode bits. */
  function Or(a: byte, b: byte): byte {
    ((a as bv8) | (b as bv8)) as int
  }

  /** Low and high byte of a 16-bit operand. */
  function Lo(a: word): byte {
    a % 0x100
  }

  function Hi(a: word): byte {
    a / 0x100
  }

  /** What `asmpush16` pushes: low byte first. */
  function LittleEndian(a: word): (t: seq<byte>)
    ensures |t| == 2 && t[0] as int + t[1] as int * 0x100 == a
  {
    [Lo(a), Hi(a)]
  }

  /** What `asmpush` leaves in the buffer: bytes past the eighth are
      dropped. */
  function Capped(t: seq<byte>): (u: seq<byte>)
    ensures |u| <= InstrSize && |u| <= |t| && u == t[..|u|]
    ensures |t| <= InstrSize ==> u == t
  {
    if |t| <= InstrSize then t else t[..InstrSize]
  }

  /** Pushing after the buffer is cut short is pushing onto the whole. */
  lemma CappedAppend(t: seq<byte>, u: seq<byte>)
    ensures Capped(Capped(t) + u) == Capped(t + u)
  {
    if |t| > InstrSize {
      assert (t[..InstrSize] + u)[..InstrSize] == (t + u)[..InstrSize];
    }
  }

  // ---------------------------------------------------------------------
  // Operand syntax shared by the encoders

  /** The index register an operand names, if any. */
  datatype Index = Plain | IndexX | IndexY

  /** The `,X` / `,Y` suffix at `j`: a comma, then X (when `x` is allowed)
      or Y (when `y` is) in either case. A comma followed by anything else
      is consumed on its own. */
  function Suffix(s: string, j: nat, x: bool, y: bool): (Index, nat) {
    if At(s, j) != ',' then (Plain, j)
    else if x && ToUpper(At(s, j + 1)) == 'X' then (IndexX, j + 2)
    else if y && ToUpper(At(s, j + 1)) == 'Y' then (IndexY, j + 2)
    else (Plain, j + 1)
  }

  /** `(x ? 0x10 : 0x00)` */
  function XBit(r: Index): byte {
    if r == IndexX then 0x10 else 0x00
  }

  /** `(y ? 0x10 : 0x00)` */
  function YBit(r: Index): byte {
    if r == IndexY then 0x10 else 0x00
  }

  /** The bytes one encoder pushes. */
  type Instr = t: seq<byte> | |t| <= MaxInstr

  /** What an encoder pushed, and what it returned. */
  datatype Encoding = Encoding(bytes: Instr, result: int)

  /** Failure (-1) after pushing `bytes`. */
  function Fail(bytes: Instr): Encoding {
    Encoding(bytes, -1)
  }

  /** Success, having read from `i` to `j`. */
  function Done(bytes: Instr, i: nat, j: nat): Encoding
    requires i <= j
  {
    Encoding(bytes, j - i)
  }

  /** An opcode followed by its zero-page byte, or by a little-endian word
      when the operand does not fit in a byte. */
  function Sized(a: word, abs: byte, zp: byte): Instr {
    if a >= 0x100 then [abs] + LittleEndian(a) else [zp, a]
  }

  /** `#value` at `i`: the value follows the `#` and must fit in a byte. */
  function Immediate(s: string, i: nat, op: byte): Encoding {
    match ReadAddress(s, i + 1)
    case None => Fail([])
    case Some(r) =>
      if r.0 >= 0x100 then Fail([]) else Done([op, r.0], i, r.1)
  }

  /** `(zp,X)`, `(zp),Y` or `(zp)` at `i`, for `asm_alu` and `asm_sta`: the
      operand must fit in a byte, and the opcode and operand are pushed
      before the closing parenthesis is checked. */
  function Indirect(s: string, i: nat, opY: byte, opX: byte, opZp: byte): Encoding {
    match ReadAddress(s, i + 1)
    case None => Fail([])
    case Some(r) =>
      var a := r.0;
      var t := Suffix(s, SkipSpace(s, r.1), true, true);
      if a >= 0x100 then Fail([])
      else
        var op := if t.0 == IndexY then opY else if t.0 == IndexX then opX else opZp;
        var k := SkipSpace(s, t.1);
        if At(s, k) != ')' then Fail([op, a]) else Done([op, a], i, k + 1)
  }

  /** An address, white space and an optional index suffix. */
  function Address(s: string, i: nat, x: bool, y: bool): Option<(word, Index, nat)> {
    match ReadAddress(s, i)
    case None => None
    case Some(r) =>
      var t := Suffix(s, SkipSpace(s, r.1), x, y);
      Some((r.0, t.0, t.1))
  }

  // ---------------------------------------------------------------------
  // The encoders (test/monitor.c:221-660)

  /** `asm_one`: the opcode alone. */
  function One(mask: byte): Encoding {
    Encoding([mask], 0)
  }

  /** `asm_alu`: immediate, the three indirect forms, `abs,Y`, and absolute
      or zero page with an optional `,X`. */
  function Alu(s: string, i: nat, mask: byte): Encoding {
    if At(s, i) == '#' then Immediate(s, i, Or(mask, 0x09))
    else if At(s, i) == '(' then Indirect(s, i, Or(mask, 0x11), Or(mask, 0x01), Or(mask, 0x12))
    else
      match Address(s, i, true, true)
      case None => Fail([])
      case Some(r) =>
        if r.1 == IndexY then Done([Or(mask, 0x19)] + LittleEndian(r.0), i, r.2)
        else Done(Sized(r.0, Or(Or(mask, 0x0D), XBit(r.1)), Or(Or(mask, 0x05), XBit(r.1))), i, r.2)
  }

  /** An accumulator operand: nothing, or `A` in either case. */
  predicate Accumulator(s: string, j: nat) {
    At(s, j) == '\0' || ToUpper(At(s, j)) == 'A'
  }

  /** The cursor after an accumulator operand: past the `A`, if there is
      one. */
  function AccumulatorEnd(s: string, j: nat): nat {
    if At(s, j) == '\0' then j else j + 1
  }

  /** `asm_rmw`, corrected to step past an `A` operand: the accumulator
      form, or absolute or zero page with an optional `,X`. */
  function Rmw(s: string, i: nat, mask: byte): Encoding {
    var j := SkipSpace(s, i);
    if Accumulator(s, j) then Done([Or(mask, 0x0A)], i, AccumulatorEnd(s, j))
    else
      match Address(s, j, true, false)
      case None => Fail([])
      case Some(r) => Done(Sized(r.0, Or(Or(mask, 0x0E), XBit(r.1)), Or(Or(mask, 0x06), XBit(r.1))), i, r.2)
  }

  /** `asm_rmw` as written: the `A` of an accumulator operand is left
      unread. */
  function RmwAsWritten(s: string, i: nat, mask: byte): Encoding {
    var j := SkipSpace(s, i);
    if Accumulator(s, j) then Done([Or(mask, 0x0A)], i, j) else Rmw(s, i, mask)
  }

  /** `asm_rmw_inc` and `asm_rmw_dec`, corrected like `Rmw`: their
      accumulator forms have opcodes of their own; anything else goes to
      `asm_rmw`, which counts from where white space ends. */
  function RmwOwn(s: string, i: nat, mask: byte, acc: byte): Encoding {
    var j := SkipSpace(s, i);
    if Accumulator(s, j) then Done([acc], i, AccumulatorEnd(s, j)) else Rmw(s, j, mask)
  }

  /** `asm_rmw_inc` and `asm_rmw_dec` as written. */
  function RmwOwnAsWritten(s: string, i: nat, mask: byte, acc: byte): Encoding {
    var j := SkipSpace(s, i);
    if Accumulator(s, j) then Done([acc], i, j) else Rmw(s, j, mask)
  }

  /** The opcode of `RMBn`/`SMBn`/`BBRn`/`BBSn`, corrected: the bit number
      goes in the opcode's high nibble. */
  function BitOpcode(mask: byte, d: int): byte
    requires 0 <= d < 8
  {
    Or(mask, d * 16)
  }

  /** The same opcode as written, `mask | (d << 3)`. */
  function BitOpcodeAsWritten(mask: byte, d: int): byte
    requires 0 <= d < 8
  {
    Or(mask, d * 8)
  }

  /** `asm_rmb` with the bit number's opcode from `BitOpcode`: an octal
      digit, then a zero-page address whose low byte is pushed. */
  function Rmb(s: string, i: nat, mask: byte): Encoding {
    var d := OctToDec(At(s, i));
    if d < 0 then Fail([])
    else
      match ReadAddress(s, SkipSpace(s, i + 1))
      case None => Fail([])
      case Some(r) => Done([BitOpcode(mask, d), Lo(r.0)], i, r.1)
  }

  /** `asm_rmb` as written. */
  function RmbAsWritten(s: string, i: nat, mask: byte): Encoding {
    var d := OctToDec(At(s, i));
    if d < 0 then Fail([])
    else
      match ReadAddress(s, SkipSpace(s, i + 1))
      case None => Fail([])
      case Some(r) => Done([BitOpcodeAsWritten(mask, d), Lo(r.0)], i, r.1)
  }

  /** The operands of `asm_bbr` from `j` on: white space, a zero-page
      address, white space, a comma, white space and a branch target. */
  function BbrOperands(s: string, j: nat): Option<(word, word, nat)> {
    match ReadAddress(s, SkipSpace(s, j))
    case None => None
    case Some(r) =>
      var k := SkipSpace(s, r.1);
      if At(s, k) != ',' then None
      else
        match ReadAddress(s, SkipSpace(s, k + 1))
        case None => None
        case Some(q) => Some((r.0, q.0, q.1))
  }

  /** `asm_bbr` with the bit number's opcode from `BitOpcode`: an octal
      digit and the operands, whose low bytes are pushed. */
  function Bbr(s: string, i: nat, mask: byte): Encoding {
    var d := OctToDec(At(s, i));
    if d < 0 then Fail([])
    else
      match BbrOperands(s, i + 1)
      case None => Fail([])
      case Some(r) => Done([BitOpcode(mask, d), Lo(r.0), Lo(r.1)], i, r.2)
  }

  /** `asm_bbr` as written. */
  function BbrAsWritten(s: string, i: nat, mask: byte): Encoding {
    var d := OctToDec(At(s, i));
    if d < 0 then Fail([])
    else
      match BbrOperands(s, i + 1)
      case None => Fail([])
      case Some(r) => Done([BitOpcodeAsWritten(mask, d), Lo(r.0), Lo(r.1)], i, r.2)
  }

  /** `asm_bra`: a one-byte branch operand. */
  function Bra(s: string, i: nat, mask: byte): Encoding {
    match ReadAddress(s, i)
    case None => Fail([])
    case Some(r) => if r.0 >= 0x100 then Fail([]) else Done([mask, r.0], i, r.1)
  }

  /** `asm_bit`: immediate, or absolute or zero page with an optional `,X`. */
  function Bit(s: string, i: nat): Encoding {
    if At(s, i) == '#' then Immediate(s, i, 0x89)
    else
      match Address(s, i, true, false)
      case None => Fail([])
      case Some(r) => Done(Sized(r.0, Or(0x2C, XBit(r.1)), Or(0x24, XBit(r.1))), i, r.2)
  }

  /** `asm_cpx`, corrected: immediate, zero page and absolute opcodes are
      the row's mask plus 0x00, 0x04 and 0x0C, with masks 0xE0 for CPX and
      0xC0 for CPY. */
  function Cpx(s: string, i: nat, mask: byte): Encoding {
    if At(s, i) == '#' then Immediate(s, i, mask)
    else
      match ReadAddress(s, i)
      case None => Fail([])
      case Some(r) => Done(Sized(r.0, Or(mask, 0x0C), Or(mask, 0x04)), i, SkipSpace(s, r.1))
  }

  /** `asm_cpx` as written, with the table's masks 0xC0 for CPX and 0xE0 for
      CPY: `mask | 0x0C` for an immediate, and CPX's own opcodes for the
      other forms whatever the mask. */
  function CpxAsWritten(s: string, i: nat, mask: byte): Encoding {
    if At(s, i) == '#' then Immediate(s, i, Or(mask, 0x0C))
    else
      match ReadAddress(s, i)
      case None => Fail([])
      case Some(r) => Done(Sized(r.0, 0xEC, 0xE4), i, SkipSpace(s, r.1))
  }

  /** `asm_ldx`: immediate, or absolute or zero page with an optional `,Y`. */
  function Ldx(s: string, i: nat): Encoding {
    if At(s, i) == '#' then Immediate(s, i, 0xA2)
    else
      match Address(s, i, false, true)
      case None => Fail([])
      case Some(r) => Done(Sized(r.0, Or(0xAE, YBit(r.1)), Or(0xA6, YBit(r.1))), i, r.2)
  }

  /** `asm_ldy`: immediate, or absolute or zero page with an optional `,X`. */
  function Ldy(s: string, i: nat): Encoding {
    if At(s, i) == '#' then Immediate(s, i, 0xA0)
    else
      match Address(s, i, true, false)
      case None => Fail([])
      case Some(r) => Done(Sized(r.0, Or(0xAC, XBit(r.1)), Or(0xA4, XBit(r.1))), i, r.2)
  }

  /** `asm_sta`: the indirect forms, `abs,Y`, and absolute or zero page with
      an optional `,X`; there is no immediate. */
  function Sta(s: string, i: nat): Encoding {
    if At(s, i) == '(' then Indirect(s, i, 0x91, 0x81, 0x92)
    else
      match Address(s, i, true, true)
      case None => Fail([])
      case Some(r) =>
        if r.1 == IndexY then Done([0x99] + LittleEndian(r.0), i, r.2)
        else Done(Sized(r.0, Or(0x8D, XBit(r.1)), Or(0x85, XBit(r.1))), i, r.2)
  }

  /** `asm_stx`: absolute or zero page, or `zp,Y`, whose operand must fit in
      a byte. */
  function Stx(s: string, i: nat): Encoding {
    match Address(s, i, false, true)
    case None => Fail([])
    case Some(r) =>
      if r.1 == IndexY then (if r.0 >= 0x100 then Fail([]) else Done([0x96, r.0], i, r.2))
      else Done(Sized(r.0, 0x8E, 0x86), i, r.2)
  }

  /** `asm_sty`: absolute or zero page, or `zp,X`, whose operand must fit in
      a byte. */
  function Sty(s: string, i: nat): Encoding {
    match Address(s, i, true, false)
    case None => Fail([])
    case Some(r) =>
      if r.1 == IndexX then (if r.0 >= 0x100 then Fail([]) else Done([0x94, r.0], i, r.2))
      else Done(Sized(r.0, 0x8C, 0x84), i, r.2)
  }

  /** `asm_stz`: absolute (`,X` adds 0x02) or zero page (`,X` adds 0x10). */
  function Stz(s: string, i: nat): Encoding {
    match Address(s, i, true, false)
    case None => Fail([])
    case Some(r) =>
      Done(Sized(r.0, Or(0x9C, if r.1 == IndexX then 0x02 else 0x00), Or(0x64, XBit(r.1))), i, r.2)
  }

  /** `asm_tsb`: absolute or zero page. */
  function Tsb(s: string, i: nat, mask: byte): Encoding {
    match ReadAddress(s, i)
    case None => Fail([])
    case Some(r) => Done(Sized(r.0, Or(mask, 0x0C), Or(mask, 0x04)), i, r.1)
  }

  /** `asm_jmp`: `(abs)` or `(abs,X)`, whose closing parenthesis is checked
      after the push, or absolute. */
  function Jmp(s: string, i: nat): Encoding {
    if At(s, i) == '(' then
      match Address(s, i + 1, true, false)
      case None => Fail([])
      case Some(r) =>
        var bytes := [if r.1 == IndexX then 0x7C else 0x6C] + LittleEndian(r.0);
        if At(s, r.2) != ')' then Fail(bytes) else Done(bytes, i, r.2 + 1)
    else
      match ReadAddress(s, i)
      case None => Fail([])
      case Some(r) => Done([0x4C] + LittleEndian(r.0), i, r.1)
  }

  /** `asm_jsr`: absolute. */
  function Jsr(s: string, i: nat): Encoding {
    match ReadAddress(s, i)
    case None => Fail([])
    case Some(r) => Done([0x20] + LittleEndian(r.0), i, r.1)
  }

  /** `asm_brk`: an optional immediate signature byte, zero by default. */
  function Brk(s: string, i: nat): Encoding {
    if At(s, i) == '#' then Immediate(s, i, 0x00) else Encoding([0x00, 0x00], 0)
  }

  // ---------------------------------------------------------------------
  // The opcode table (test/monitor.c:662-772)

  /** The encoder a table row points to. */
  datatype AsmMode =
    | OneMode | AluMode | RmwMode | RmwIncMode | RmwDecMode | RmbMode | BbrMode | BraMode | BitMode
    | CpxMode | LdxMode | LdyMode | StaMode | StxMode | StyMode | StzMode | TsbMode | JmpMode | JsrMode
    | BrkMode

  /** A row of `asm_opcode_table`: the three letters of the mnemonic, the
      mask handed to the encoder, and the encoder. */
  datatype AsmOpcode = AsmOpcode(c0: char, c1: char, c2: char, mask: byte, mode: AsmMode) {
    function Id(): string {
      [c0, c1, c2]
    }

    /** `Key(Id())`, from the letters themselves. */
    function Rank(): int {
      (c0 as int * 0x11_0000 + c1 as int) * 0x11_0000 + c2 as int
    }
  }

  /** The number of rows. */
  const Count := 70

  /** The rows of `asm_opcode_table`, as written. */
  function Entry(k: nat): AsmOpcode
    requires k < Count
  {
    var h, l := k / 8, k % 8;
    match h
    case 0 =>
      (match l
       case 0 => AsmOpcode('A', 'D', 'C', 0x60, AluMode)
       case 1 => AsmOpcode('A', 'N', 'D', 0x20, AluMode)
       case 2 => AsmOpcode('A', 'S', 'L', 0x00, RmwMode)
       case 3 => AsmOpcode('B', 'B', 'R', 0x0F, BbrMode)
       case 4 => AsmOpcode('B', 'B', 'S', 0x8F, BbrMode)
       case 5 => AsmOpcode('B', 'C', 'C', 0x90, BraMode)
       case 6 => AsmOpcode('B', 'C', 'S', 0xB0, BraMode)
       case _ => AsmOpcode('B', 'E', 'Q', 0xF0, BraMode))
    case 1 =>
      (match l
       case 0 => AsmOpcode('B', 'I', 'T', 0x00, BitMode)
       case 1 => AsmOpcode('B', 'M', 'I', 0x30, BraMode)
       case 2 => AsmOpcode('B', 'N', 'E', 0xD0, BraMode)
       case 3 => AsmOpcode('B', 'P', 'L', 0x10, BraMode)
       case 4 => AsmOpcode('B', 'R', 'A', 0x80, BraMode)
       case 5 => AsmOpcode('B', 'R', 'K', 0x00, BrkMode)
       case 6 => AsmOpcode('B', 'V', 'C', 0x50, BraMode)
       case _ => AsmOpcode('B', 'V', 'S', 0x70, BraMode))
    case 2 =>
      (match l
       case 0 => AsmOpcode('C', 'L', 'C', 0x18, OneMode)
       case 1 => AsmOpcode('C', 'L', 'D', 0xD8, OneMode)
       case 2 => AsmOpcode('C', 'L', 'I', 0x58, OneMode)
       case 3 => AsmOpcode('C', 'L', 'V', 0xB8, OneMode)
       case 4 => AsmOpcode('C', 'M', 'P', 0xC0, AluMode)
       case 5 => AsmOpcode('C', 'P', 'X', 0xC0, CpxMode)
       case 6 => AsmOpcode('C', 'P', 'Y', 0xE0, CpxMode)
       case _ => AsmOpcode('D', 'E', 'C', 0xC0, RmwDecMode))
    case 3 =>
      (match l
       case 0 => AsmOpcode('D', 'E', 'X', 0xCA, OneMode)
       case 1 => AsmOpcode('D', 'E', 'Y', 0x88, OneMode)
       case 2 => AsmOpcode('E', 'O', 'R', 0x40, AluMode)
       case 3 => AsmOpcode('I', 'N', 'C', 0xE0, RmwIncMode)
       case 4 => AsmOpcode('I', 'N', 'X', 0xE8, OneMode)
       case 5 => AsmOpcode('I', 'N', 'Y', 0xC8, OneMode)
       case 6 => AsmOpcode('J', 'M', 'P', 0x00, JmpMode)
       case _ => AsmOpcode('J', 'S', 'R', 0x00, JsrMode))
    case 4 =>
      (match l
       case 0 => AsmOpcode('L', 'D', 'A', 0xA0, AluMode)
       case 1 => AsmOpcode('L', 'D', 'X', 0x00, LdxMode)
       case 2 => AsmOpcode('L', 'D', 'Y', 0x00, LdyMode)
       case 3 => AsmOpcode('L', 'S', 'R', 0x40, RmwMode)
       case 4 => AsmOpcode('N', 'O', 'P', 0xEA, OneMode)
       case 5 => AsmOpcode('O', 'R', 'A', 0x00, AluMode)
       case 6 => AsmOpcode('P', 'H', 'A', 0x48, OneMode)
       case _ => AsmOpcode('P', 'H', 'P', 0x08, OneMode))
    case 5 =>
      (match l
       case 0 => AsmOpcode('P', 'H', 'X', 0xDA, OneMode)
       case 1 => AsmOpcode('P', 'H', 'Y', 0x5A, OneMode)
       case 2 => AsmOpcode('P', 'L', 'A', 0x68, OneMode)
       case 3 => AsmOpcode('P', 'L', 'P', 0x28, OneMode)
       case 4 => AsmOpcode('P', 'L', 'X', 0xFA, OneMode)
       case 5 => AsmOpcode('P', 'L', 'Y', 0x7A, OneMode)
       case 6 => AsmOpcode('R', 'M', 'B', 0x07, RmbMode)
       case _ => AsmOpcode('R', 'O', 'L', 0x20, RmwMode))
    case 6 =>
      (match l
       case 0 => AsmOpcode('R', 'O', 'R', 0x60, RmwMode)
       case 1 => AsmOpcode('R', 'T', 'I', 0x40, OneMode)
       case 2 => AsmOpcode('R', 'T', 'S', 0x60, OneMode)
       case 3 => AsmOpcode('S', 'B', 'C', 0xE0, AluMode)
       case 4 => AsmOpcode('S', 'E', 'C', 0x38, OneMode)
       case 5 => AsmOpcode('S', 'E', 'D', 0xF8, OneMode)
       case 6 => AsmOpcode('S', 'E', 'I', 0x78, OneMode)
       case _ => AsmOpcode('S', 'M', 'B', 0x87, RmbMode))
    case 7 =>
      (match l
       case 0 => AsmOpcode('S', 'T', 'A', 0x00, StaMode)
       case 1 => AsmOpcode('S', 'T', 'P', 0xDB, OneMode)
       case 2 => AsmOpcode('S', 'T', 'X', 0x00, StxMode)
       case 3 => AsmOpcode('S', 'T', 'Y', 0x00, StyMode)
       case 4 => AsmOpcode('S', 'T', 'Z', 0x00, StzMode)
       case 5 => AsmOpcode('T', 'A', 'X', 0xAA, OneMode)
       case 6 => AsmOpcode('T', 'A', 'Y', 0xA8, OneMode)
       case _ => AsmOpcode('T', 'R', 'B', 0x10, TsbMode))
    case _ =>
      (match l
       case 0 => AsmOpcode('T', 'S', 'B', 0x00, TsbMode)
       case 1 => AsmOpcode('T', 'S', 'X', 0xBA, OneMode)
       case 2 => AsmOpcode('T', 'X', 'A', 0x8A, OneMode)
       case 3 => AsmOpcode('T', 'X', 'S', 0x9A, OneMode)
       case 4 => AsmOpcode('T', 'Y', 'A', 0x98, OneMode)
       case _ => AsmOpcode('W', 'A', 'I', 0xCB, OneMode))
  }

  /** `asm_opcode_table` as the array `bsearch` is handed. */
  function Table(): seq<AsmOpcode> {
    seq(Count, k requires 0 <= k < Count => Entry(k))
  }

  /** The row the assembler uses: the table's, except that CPX and CPY carry
      their own immediate opcodes as masks, for the corrected `Cpx`. */
  function Corrected(e: AsmOpcode): (f: AsmOpcode)
    ensures f.Id() == e.Id() && f.mode == e.mode
    ensures f.mode != CpxMode ==> f == e
  {
    if e.mode == CpxMode then e.(mask := if e.c2 == 'X' then 0xE0 else 0xC0) else e
  }

  /** A three-letter string as a number that orders like `strcmp`. */
  function Key(id: string): int
    requires |id| == 3
  {
    (id[0] as int * 0x11_0000 + id[1] as int) * 0x11_0000 + id[2] as int
  }

  /** `strcmp` on two three-letter mnemonics: negative, zero or positive as
      the first sorts before, equal to or after the second. */
  function StrCmp(a: string, b: string): int
    requires |a| == 3 && |b| == 3
  {
    Key(a) - Key(b)
  }

  /** `Key` orders by the first letter that differs, as `strcmp` does, and
      tells different mnemonics apart. */
  lemma KeyIsLexicographic(a: string, b: string)
    requires |a| == 3 && |b| == 3
    ensures Key(a) < Key(b) <==>
      a[0] < b[0] || (a[0] == b[0] && (a[1] < b[1] || (a[1] == b[1] && a[2] < b[2])))
    ensures Key(a) == Key(b) <==> a == b
  {
    assert a == [a[0], a[1], a[2]] && b == [b[0], b[1], b[2]];
  }

  lemma RankIsKey(e: AsmOpcode)
    ensures e.Rank() == Key(e.Id())
  {
  }

  /** Each row of the first half of the table sorts strictly before the
      next. */
  lemma AdjacentLow(k: nat)
    requires k < 32
    ensures Entry(k).Rank() < Entry(k + 1).Rank()
  {
    if k < 8 {
      assert k / 8 == 0;
    } else if k < 16 {
      assert k / 8 == 1;
    } else if k < 24 {
      assert k / 8 == 2;
    } else {
      assert k / 8 == 3;
    }
  }

  /** Each row of the second half of the table sorts strictly before the
      next. */
  lemma AdjacentHigh(k: nat)
    requires 32 <= k < Count - 1
    ensures Entry(k).Rank() < Entry(k + 1).Rank()
  {
    if k < 40 {
      assert k / 8 == 4;
    } else if k < 48 {
      assert k / 8 == 5;
    } else if k < 56 {
      assert k / 8 == 6;
    } else if k < 64 {
      assert k / 8 == 7;
    } else {
      assert k / 8 == 8;
    }
  }

  /** The rows of `asm_opcode_table` are strictly increasing by
      mnemonic. */
  lemma EntriesSorted(i: nat, j: nat)
    requires i < j < Count
    ensures Entry(i).Rank() < Entry(j).Rank()
  {
    var f := (k: nat) => if k < Count then Entry(k).Rank() else 0;
    forall k: nat | k + 1 < Count
      ensures f(k) < f(k + 1)
    {
      if k < 32 {
        AdjacentLow(k);
      } else {
        AdjacentHigh(k);
      }
    }
    Ascending(f, Count, i, j);
  }

  /** Steps up from each index to the next add up to steps up between any
      two indices. */
  lemma {:induction false} Ascending(f: nat -> int, n: nat, i: nat, j: nat)
    requires forall k: nat :: k + 1 < n ==> f(k) < f(k + 1)
    requires i < j < n
    ensures f(i) < f(j)
    decreases j - i
  {
    if i < j - 1 {
      Ascending(f, n, i, j - 1);
    }
  }

  /** Rows strictly increasing by mnemonic, as `bsearch` requires. */
  ghost predicate Sorted(t: seq<AsmOpcode>) {
    forall i, j | 0 <= i < j < |t| :: t[i].Rank() < t[j].Rank()
  }

  /** `asm_opcode_table` is sorted. */
  lemma TableSorted()
    ensures Sorted(Table())
  {
    forall i, j | 0 <= i < j < |Table()|
      ensures Table()[i].Rank() < Table()[j].Rank()
    {
      EntriesSorted(i, j);
    }
  }

  /** The first row of `t` from `k` on whose mnemonic is `id`. */
  function Find(t: seq<AsmOpcode>, id: string, k: nat): (r: Option<nat>)
    ensures r.Some? ==> k <= r.value < |t| && t[r.value].Id() == id
    ensures r.None? ==> forall j | k <= j < |t| :: t[j].Id() != id
    decreases |t| - k
  {
    if k >= |t| then None
    else if t[k].Id() == id then Some(k)
    else Find(t, id, k + 1)
  }

  /** In a sorted table a row with the mnemonic is the only one. */
  lemma FindUnique(t: seq<AsmOpcode>, id: string, k: nat)
    requires Sorted(t) && k < |t| && t[k].Id() == id
    ensures Find(t, id, 0) == Some(k)
  {
    var r := Find(t, id, 0);
    if r.None? {
      assert false;
    } else if r.value != k {
      RankIsKey(t[k]);
      RankIsKey(t[r.value]);
      assert false;
    }
  }

  /** In a sorted table a mnemonic that sorts between two neighbouring rows
      is in no row. */
  lemma FindBetween(t: seq<AsmOpcode>, id: string, k: nat)
    requires |id| == 3 && Sorted(t) && k <= |t|
    requires k > 0 ==> t[k - 1].Rank() < Key(id)
    requires k < |t| ==> Key(id) < t[k].Rank()
    ensures Find(t, id, 0) == None
  {
    var r := Find(t, id, 0);
    if r.Some? {
      RankIsKey(t[r.value]);
      assert false;
    }
  }

  // ---------------------------------------------------------------------
  // One line of `doassemble` (test/monitor.c:780-815)

  /** The C type `asm_mode`: an encoder reading the line from a cursor,
      given the row's mask. */
  type Encoder = (string, nat, byte) -> Encoding

  /** The function a row's `assemble` pointer points to. */
  function EncoderOf(m: AsmMode): Encoder {
    match m
    case OneMode => (s: string, i: nat, mask: byte) => One(mask)
    case AluMode => Alu
    case RmwMode => Rmw
    case RmwIncMode => (s: string, i: nat, mask: byte) => RmwOwn(s, i, mask, 0x1A)
    case RmwDecMode => (s: string, i: nat, mask: byte) => RmwOwn(s, i, mask, 0x3A)
    case RmbMode => Rmb
    case BbrMode => Bbr
    case BraMode => Bra
    case BitMode => (s: string, i: nat, mask: byte) => Bit(s, i)
    case CpxMode => Cpx
    case LdxMode => (s: string, i: nat, mask: byte) => Ldx(s, i)
    case LdyMode => (s: string, i: nat, mask: byte) => Ldy(s, i)
    case StaMode => (s: string, i: nat, mask: byte) => Sta(s, i)
    case StxMode => (s: string, i: nat, mask: byte) => Stx(s, i)
    case StyMode => (s: string, i: nat, mask: byte) => Sty(s, i)
    case StzMode => (s: string, i: nat, mask: byte) => Stz(s, i)
    case TsbMode => Tsb
    case JmpMode => (s: string, i: nat, mask: byte) => Jmp(s, i)
    case JsrMode => (s: string, i: nat, mask: byte) => Jsr(s, i)
    case BrkMode => (s: string, i: nat, mask: byte) => Brk(s, i)
  }

  /** `(*opcode->assemble)(s, opcode->mask)` */
  function Encode(e: AsmOpcode, s: string, i: nat): Encoding {
    EncoderOf(e.mode)(s, i, e.mask)
  }

  /** What one input line comes to: the end of assembly (a blank line), an
      error, or the bytes written at `address_asm`. */
  datatype LineResult = EndOfInput | LineError | Assembled(bytes: seq<byte>)

  /** How many of the three characters from `j` come before the line ends. */
  function Letters(s: string, j: nat): (n: nat)
    ensures n <= 3
  {
    if At(s, j) == '\0' then 0
    else if At(s, j + 1) == '\0' then 1
    else if At(s, j + 2) == '\0' then 2
    else 3
  }

  /** The upper-cased mnemonic at `j`. */
  function Mnemonic3(s: string, j: nat): (t: string)
    ensures |t| == 3
  {
    [ToUpper(At(s, j)), ToUpper(At(s, j + 1)), ToUpper(At(s, j + 2))]
  }

  /** What the start of a line names: nothing (a blank line), something
      that is not a mnemonic, or a row of `t` and where its operand
      starts. */
  datatype Statement = Blank | Unknown | Instruction(row: nat, operand: nat)

  /** The start of one line of `doassemble` with opcode table `t`: white
      space, then three letters naming a row, then white space. */
  function Recognize(t: seq<AsmOpcode>, s: string): (r: Statement)
    ensures r.Instruction? ==> r.row < |t|
  {
    var j := SkipSpace(s, 0);
    if At(s, j) == '\0' then Blank
    else if Letters(s, j) != 3 then Unknown
    else
      match Find(t, Mnemonic3(s, j), 0)
      case None => Unknown
      case Some(e) => Instruction(e, SkipSpace(s, j + 3))
  }

  /** One line of `doassemble` with opcode table `t`: the row's encoder
      reads the operand, and nothing but white space may follow it; a
      failing encoder is an error. */
  function Assemble(t: seq<AsmOpcode>, s: string): LineResult {
    match Recognize(t, s)
    case Blank => EndOfInput
    case Unknown => LineError
    case Instruction(e, k) => Accept(s, k, Encode(Corrected(t[e]), s, k))
  }

  /** What the line comes to once the encoder has run from `k`: an error if
      it failed or if anything but white space follows what it read, and
      otherwise the bytes it pushed. */
  function Accept(s: string, k: nat, enc: Encoding): LineResult {
    if enc.result < 0 then LineError
    else if At(s, SkipSpace(s, k + enc.result)) != '\0' then LineError
    else Assembled(enc.bytes)
  }

  /** `if (i < 0)` on the `unsigned` that holds the encoder's result: the
      result converted to 32 bits, compared with zero. */
  predicate CaughtAsWritten(result: int) {
    result % 0x1_0000_0000 < 0
  }

  /** `Accept` as written: a failing encoder is not caught, and the
      trailing-text check looks `(unsigned) -1` characters on. */
  function AcceptAsWritten(s: string, k: nat, enc: Encoding): LineResult {
    if CaughtAsWritten(enc.result) then LineError
    else if At(s, SkipSpace(s, k + enc.result % 0x1_0000_0000)) != '\0' then LineError
    else Assembled(enc.bytes)
  }

  /** The memory after the write loop stores `t` from address `a` on. */
  function Store(ram: Ram, a: word, t: seq<byte>): Ram
    decreases |t|
  {
    if |t| == 0 then ram else Store(ram, a, t[..|t| - 1])[Offset(a, |t| - 1) := t[|t| - 1]]
  }

  /** Fewer than 64 Ki steps on from one address never come back to it. */
  lemma OffsetsDiffer(a: word, j: nat, k: nat)
    requires j < k < 0x1_0000
    ensures Offset(a, j) != Offset(a, k)
  {
    var qj, qk := (a + j) / 0x1_0000, (a + k) / 0x1_0000;
    assert a + j == qj * 0x1_0000 + Offset(a, j);
    assert a + k == qk * 0x1_0000 + Offset(a, k);
    if Offset(a, j) == Offset(a, k) {
      assert false;
    }
  }

  /** Byte `j` of what `Store` writes ends up `j` bytes on from the start. */
  lemma {:induction false} StoreAt(ram: Ram, a: word, t: seq<byte>, j: nat)
    requires j < |t| <= 0x1_0000
    ensures Store(ram, a, t)[Offset(a, j)] == t[j]
    decreases |t|
  {
    var n := |t| - 1;
    if j < n {
      OffsetsDiffer(a, j, n);
      StoreAt(ram, a, t[..n], j);
    }
  }

  /** `Store` leaves every address it does not write alone. */
  lemma {:induction false} StoreElsewhere(ram: Ram, a: word, t: seq<byte>, p: word)
    requires forall j | 0 <= j < |t| :: Offset(a, j) != p
    ensures Store(ram, a, t)[p] == ram[p]
    decreases |t|
  {
    if |t| > 0 {
      StoreElsewhere(ram, a, t[..|t| - 1], p);
    }
  }
}
