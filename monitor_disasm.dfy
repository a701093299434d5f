/**
 * The monitor's disassembler (test/monitor.c:817-1226): the opcode table
 * of mnemonics and operand formats, the operand printers writing into
 * `disasm_buf`, and `disassemble`, which prints one line for the
 * instruction at `address_disasm` and moves past it.
 *
 * `ram` is the monitor's 64 KiB memory; the text `printf` writes is
 * returned as a string.
 */
module MonitorDisasm {
  import opened MonitorText

  /** `sizeof(disasm_buf)` */
  const BufSize := 64

  /** The longest operand text any format prints: `($XXXX,X)`. */
  const MaxOperandText := 9

  /** The operand formats, one per `disasm_*` printer. */
  datatype Mode = Implied | Imm | Zp | Zpx | Zpy | Zpr | Izp | Izx | Izy | Abs | Abx | Aby | Ind | Iax

  // ---------------------------------------------------------------------
  // The opcode table (test/monitor.c:948-1205)

  /** The mnemonic the table lists for each opcode. */
  function Mnemonic(op: byte): string {
    var h, l := op / 16, op % 16;
    match h
    case 0 =>
      (match l
       case 0 => "BRK"
       case 1 => "ORA"
       case 2 => "NOP"
       case 3 => "NOP"
       case 4 => "TSB"
       case 5 => "ORA"
       case 6 => "ASL"
       case 7 => "RMB0"
       case 8 => "PHP"
       case 9 => "ORA"
       case 10 => "ASL"
       case 11 => "NOP"
       case 12 => "TSB"
       case 13 => "ORA"
       case 14 => "ASL"
       case _ => "BBR0")
    case 1 =>
      (match l
       case 0 => "BPL"
       case 1 => "ORA"
       case 2 => "ORA"
       case 3 => "NOP"
       case 4 => "TRB"
       case 5 => "ORA"
       case 6 => "ASL"
       case 7 => "RMB1"
       case 8 => "CLC"
       case 9 => "ORA"
       case 10 => "INC"
       case 11 => "NOP"
       case 12 => "TRB"
       case 13 => "ORA"
       case 14 => "ASL"
       case _ => "BBR1")
    case 2 =>
      (match l
       case 0 => "JSR"
       case 1 => "AND"
       case 2 => "NOP"
       case 3 => "NOP"
       case 4 => "BIT"
       case 5 => "AND"
       case 6 => "ROL"
       case 7 => "RMB2"
       case 8 => "PLP"
       case 9 => "AND"
       case 10 => "ROL"
       case 11 => "NOP"
       case 12 => "BIT"
       case 13 => "AND"
       case 14 => "ROL"
       case _ => "BBR2")
    case 3 =>
      (match l
       case 0 => "BMI"
       case 1 => "AND"
       case 2 => "AND"
       case 3 => "NOP"
       case 4 => "BIT"
       case 5 => "AND"
       case 6 => "ROL"
       case 7 => "RMB3"
       case 8 => "SEC"
       case 9 => "AND"
       case 10 => "DEC"
       case 11 => "NOP"
       case 12 => "BIT"
       case 13 => "AND"
       case 14 => "ROL"
       case _ => "BBR3")
    case 4 =>
      (match l
       case 0 => "RTI"
       case 1 => "EOR"
       case 2 => "NOP"
       case 3 => "NOP"
       case 4 => "NOP"
       case 5 => "EOR"
       case 6 => "LSR"
       case 7 => "RMB4"
       case 8 => "PHA"
       case 9 => "EOR"
       case 10 => "LSR"
       case 11 => "NOP"
       case 12 => "JMP"
       case 13 => "EOR"
       case 14 => "LSR"
       case _ => "BBR4")
    case 5 =>
      (match l
       case 0 => "BVC"
       case 1 => "EOR"
       case 2 => "EOR"
       case 3 => "NOP"
       case 4 => "NOP"
       case 5 => "EOR"
       case 6 => "LSR"
       case 7 => "RMB5"
       case 8 => "CLI"
       case 9 => "EOR"
       case 10 => "PHY"
       case 11 => "NOP"
       case 12 => "NOP"
       case 13 => "EOR"
       case 14 => "LSR"
       case _ => "BBR5")
    case 6 =>
      (match l
       case 0 => "RTS"
       case 1 => "ADC"
       case 2 => "NOP"
       case 3 => "NOP"
       case 4 => "STZ"
       case 5 => "ADC"
       case 6 => "ROR"
       case 7 => "RMB6"
       case 8 => "PLA"
       case 9 => "ADC"
       case 10 => "ROR"
       case 11 => "NOP"
       case 12 => "JMP"
       case 13 => "ADC"
       case 14 => "ROR"
       case _ => "BBR6")
    case 7 =>
      (match l
       case 0 => "BVS"
       case 1 => "ADC"
       case 2 => "ADC"
       case 3 => "NOP"
       case 4 => "STZ"
       case 5 => "ADC"
       case 6 => "ROR"
       case 7 => "RMB7"
       case 8 => "SEI"
       case 9 => "ADC"
       case 10 => "PLY"
       case 11 => "NOP"
       case 12 => "JMP"
       case 13 => "ADC"
       case 14 => "ROR"
       case _ => "BBR7")
    case 8 =>
      (match l
       case 0 => "BRA"
       case 1 => "STA"
       case 2 => "NOP"
       case 3 => "NOP"
       case 4 => "STY"
       case 5 => "STA"
       case 6 => "STX"
       case 7 => "SMB0"
       case 8 => "DEY"
       case 9 => "BIT"
       case 10 => "TXA"
       case 11 => "NOP"
       case 12 => "STY"
       case 13 => "STA"
       case 14 => "STX"
       case _ => "BBS0")
    case 9 =>
      (match l
       case 0 => "BCC"
       case 1 => "STA"
       case 2 => "STA"
       case 3 => "NOP"
       case 4 => "STY"
       case 5 => "STA"
       case 6 => "STX"
       case 7 => "SMB1"
       case 8 => "TYA"
       case 9 => "STA"
       case 10 => "TXS"
       case 11 => "NOP"
       case 12 => "STZ"
       case 13 => "STA"
       case 14 => "STZ"
       case _ => "BBS1")
    case 10 =>
      (match l
       case 0 => "LDY"
       case 1 => "LDA"
       case 2 => "LDX"
       case 3 => "NOP"
       case 4 => "LDY"
       case 5 => "LDA"
       case 6 => "LDX"
       case 7 => "SMB2"
       case 8 => "TAY"
       case 9 => "LDA"
       case 10 => "TAX"
       case 11 => "NOP"
       case 12 => "LDY"
       case 13 => "LDA"
       case 14 => "LDX"
       case _ => "BBS2")
    case 11 =>
      (match l
       case 0 => "BCS"
       case 1 => "LDA"
       case 2 => "LDA"
       case 3 => "NOP"
       case 4 => "LDY"
       case 5 => "LDA"
       case 6 => "LDX"
       case 7 => "SMB3"
       case 8 => "CLV"
       case 9 => "LDA"
       case 10 => "TSX"
       case 11 => "NOP"
       case 12 => "LDY"
       case 13 => "LDA"
       case 14 => "LDX"
       case _ => "BBS3")
    case 12 =>
      (match l
       case 0 => "CPY"
       case 1 => "CMP"
       case 2 => "NOP"
       case 3 => "NOP"
       case 4 => "CPY"
       case 5 => "CMP"
       case 6 => "DEC"
       case 7 => "SMB4"
       case 8 => "INY"
       case 9 => "CMP"
       case 10 => "DEX"
       case 11 => "WAI"
       case 12 => "CPY"
       case 13 => "CMP"
       case 14 => "DEC"
       case _ => "BBS4")
    case 13 =>
      (match l
       case 0 => "BNE"
       case 1 => "CMP"
       case 2 => "CMP"
       case 3 => "NOP"
       case 4 => "NOP"
       case 5 => "CMP"
       case 6 => "DEC"
       case 7 => "SMB5"
       case 8 => "CLD"
       case 9 => "CMP"
       case 10 => "PHX"
       case 11 => "STP"
       case 12 => "NOP"
       case 13 => "CMP"
       case 14 => "DEC"
       case _ => "BBS5")
    case 14 =>
      (match l
       case 0 => "CPX"
       case 1 => "SBC"
       case 2 => "NOP"
       case 3 => "NOP"
       case 4 => "CPX"
       case 5 => "SBC"
       case 6 => "INC"
       case 7 => "SMB6"
       case 8 => "INX"
       case 9 => "SBC"
       case 10 => "NOP"
       case 11 => "NOP"
       case 12 => "CPX"
       case 13 => "SBC"
       case 14 => "INC"
       case _ => "BBS6")
    case _ =>
      (match l
       case 0 => "BEQ"
       case 1 => "SBC"
       case 2 => "SBC"
       case 3 => "NOP"
       case 4 => "NOP"
       case 5 => "SBC"
       case 6 => "INC"
       case 7 => "SMB7"
       case 8 => "SED"
       case 9 => "SBC"
       case 10 => "PLX"
       case 11 => "NOP"
       case 12 => "NOP"
       case 13 => "SBC"
       case 14 => "INC"
       case _ => "BBS7")
  }

  /** The operand format the table lists for each opcode. */
  function ModeOf(op: byte): Mode {
    var h, l := op / 16, op % 16;
    match h
    case 0 =>
      (match l
       case 0 => Imm
       case 1 => Izx
       case 2 => Imm
       case 3 => Implied
       case 4 => Zp
       case 5 => Zp
       case 6 => Zp
       case 7 => Zp
       case 8 => Implied
       case 9 => Imm
       case 10 => Implied
       case 11 => Implied
       case 12 => Abs
       case 13 => Abs
       case 14 => Abs
       case _ => Zpr)
    case 1 =>
      (match l
       case 0 => Zp
       case 1 => Izy
       case 2 => Izp
       case 3 => Implied
       case 4 => Zp
       case 5 => Zpx
       case 6 => Zpx
       case 7 => Zp
       case 8 => Implied
       case 9 => Aby
       case 10 => Implied
       case 11 => Implied
       case 12 => Abs
       case 13 => Abx
       case 14 => Abx
       case _ => Zpr)
    case 2 =>
      (match l
       case 0 => Abs
       case 1 => Izx
       case 2 => Imm
       case 3 => Implied
       case 4 => Zp
       case 5 => Zp
       case 6 => Zp
       case 7 => Zp
       case 8 => Implied
       case 9 => Imm
       case 10 => Implied
       case 11 => Implied
       case 12 => Abs
       case 13 => Abs
       case 14 => Abs
       case _ => Zpr)
    case 3 =>
      (match l
       case 0 => Zp
       case 1 => Izy
       case 2 => Izp
       case 3 => Implied
       case 4 => Zpx
       case 5 => Zpx
       case 6 => Zpx
       case 7 => Zp
       case 8 => Implied
       case 9 => Aby
       case 10 => Implied
       case 11 => Implied
       case 12 => Abx
       case 13 => Abx
       case 14 => Abx
       case _ => Zpr)
    case 4 =>
      (match l
       case 0 => Implied
       case 1 => Izx
       case 2 => Imm
       case 3 => Implied
       case 4 => Zp
       case 5 => Zp
       case 6 => Zp
       case 7 => Zp
       case 8 => Implied
       case 9 => Imm
       case 10 => Implied
       case 11 => Implied
       case 12 => Abs
       case 13 => Abs
       case 14 => Abs
       case _ => Zpr)
    case 5 =>
      (match l
       case 0 => Zp
       case 1 => Izy
       case 2 => Izp
       case 3 => Implied
       case 4 => Zpx
       case 5 => Zpx
       case 6 => Zpx
       case 7 => Zp
       case 8 => Implied
       case 9 => Aby
       case 10 => Implied
       case 11 => Implied
       case 12 => Abs
       case 13 => Abx
       case 14 => Abx
       case _ => Zpr)
    case 6 =>
      (match l
       case 0 => Implied
       case 1 => Izx
       case 2 => Imm
       case 3 => Implied
       case 4 => Zp
       case 5 => Zp
       case 6 => Zp
       case 7 => Zp
       case 8 => Implied
       case 9 => Imm
       case 10 => Implied
       case 11 => Implied
       case 12 => Ind
       case 13 => Abs
       case 14 => Abs
       case _ => Zpr)
    case 7 =>
      (match l
       case 0 => Zp
       case 1 => Izy
       case 2 => Izp
       case 3 => Implied
       case 4 => Zpx
       case 5 => Zpx
       case 6 => Zpx
       case 7 => Zp
       case 8 => Implied
       case 9 => Aby
       case 10 => Implied
       case 11 => Implied
       case 12 => Iax
       case 13 => Abx
       case 14 => Abx
       case _ => Zpr)
    case 8 =>
      (match l
       case 0 => Zp
       case 1 => Izx
       case 2 => Imm
       case 3 => Implied
       case 4 => Zp
       case 5 => Zp
       case 6 => Zp
       case 7 => Zp
       case 8 => Implied
       case 9 => Imm
       case 10 => Implied
       case 11 => Implied
       case 12 => Abs
       case 13 => Abs
       case 14 => Abs
       case _ => Zpr)
    case 9 =>
      (match l
       case 0 => Zp
       case 1 => Izy
       case 2 => Izp
       case 3 => Implied
       case 4 => Zpx
       case 5 => Zpx
       case 6 => Zpy
       case 7 => Zp
       case 8 => Implied
       case 9 => Aby
       case 10 => Implied
       case 11 => Implied
       case 12 => Abs
       case 13 => Abx
       case 14 => Abx
       case _ => Zpr)
    case 10 =>
      (match l
       case 0 => Imm
       case 1 => Izx
       case 2 => Imm
       case 3 => Implied
       case 4 => Zp
       case 5 => Zp
       case 6 => Zp
       case 7 => Zp
       case 8 => Implied
       case 9 => Imm
       case 10 => Implied
       case 11 => Implied
       case 12 => Abs
       case 13 => Abs
       case 14 => Abs
       case _ => Zpr)
    case 11 =>
      (match l
       case 0 => Zp
       case 1 => Izy
       case 2 => Izp
       case 3 => Implied
       case 4 => Zpx
       case 5 => Zpx
       case 6 => Zpy
       case 7 => Zp
       case 8 => Implied
       case 9 => Aby
       case 10 => Implied
       case 11 => Implied
       case 12 => Abx
       case 13 => Abx
       case 14 => Aby
       case _ => Zpr)
    case 12 =>
      (match l
       case 0 => Imm
       case 1 => Izx
       case 2 => Imm
       case 3 => Implied
       case 4 => Zp
       case 5 => Zp
       case 6 => Zp
       case 7 => Zp
       case 8 => Implied
       case 9 => Imm
       case 10 => Implied
       case 11 => Implied
       case 12 => Abs
       case 13 => Abs
       case 14 => Abs
       case _ => Zpr)
    case 13 =>
      (match l
       case 0 => Zp
       case 1 => Izy
       case 2 => Izp
       case 3 => Implied
       case 4 => Zpx
       case 5 => Zpx
       case 6 => Zpx
       case 7 => Zp
       case 8 => Implied
       case 9 => Aby
       case 10 => Implied
       case 11 => Implied
       case 12 => Abs
       case 13 => Abx
       case 14 => Abx
       case _ => Zpr)
    case 14 =>
      (match l
       case 0 => Imm
       case 1 => Izx
       case 2 => Imm
       case 3 => Implied
       case 4 => Zp
       case 5 => Zp
       case 6 => Zp
       case 7 => Zp
       case 8 => Implied
       case 9 => Imm
       case 10 => Implied
       case 11 => Implied
       case 12 => Abs
       case 13 => Abs
       case 14 => Abs
       case _ => Zpr)
    case _ =>
      (match l
       case 0 => Zp
       case 1 => Izy
       case 2 => Izp
       case 3 => Implied
       case 4 => Zpx
       case 5 => Zpx
       case 6 => Zpx
       case 7 => Zp
       case 8 => Implied
       case 9 => Aby
       case 10 => Implied
       case 11 => Implied
       case 12 => Abs
       case 13 => Abx
       case 14 => Abx
       case _ => Zpr)
  }

  // ---------------------------------------------------------------------
  // Operand text (test/monitor.c:834-939)

  /** What `disasmoutzp` prints for the byte at `p`. */
  function ZpText(ram: Ram, p: word): (t: string)
    ensures |t| == 3
  {
    "$" + Hex2(ram[p])
  }

  /** The little-endian word at `p`, its high byte wrapping to address 0. */
  function Word(ram: Ram, p: word): word {
    var lo: int := ram[p];
    lo + (ram[Next(p)] as int) * 0x100
  }

  /** What `disasmoutabs` prints for the word at `p`. */
  function AbsText(ram: Ram, p: word): (t: string)
    ensures |t| == 5
  {
    "$" + Hex4(Word(ram, p))
  }

  /** The text a format's printer appends for the operand at `p`. */
  function OperandText(m: Mode, ram: Ram, p: word): string {
    match m
    case Implied => ""
    case Imm => "#" + ZpText(ram, p)
    case Zp => ZpText(ram, p)
    case Zpx => ZpText(ram, p) + ",X"
    case Zpy => ZpText(ram, p) + ",Y"
    case Zpr => ZpText(ram, p) + "," + ZpText(ram, Next(p))
    case Izp => "(" + ZpText(ram, p) + ")"
    case Izx => "(" + ZpText(ram, p) + ",X" + ")"
    case Izy => "(" + ZpText(ram, p) + "),Y"
    case Abs => AbsText(ram, p)
    case Abx => AbsText(ram, p) + ",X"
    case Aby => AbsText(ram, p) + ",Y"
    case Ind => "(" + AbsText(ram, p) + ")"
    case Iax => "(" + AbsText(ram, p) + ",X)"
  }

  /** The operand length a format's printer returns. */
  function OperandLength(m: Mode): (n: nat)
    ensures n <= 2
  {
    match m
    case Implied => 0
    case Imm | Zp | Zpx | Zpy | Izp | Izx | Izy => 1
    case Zpr | Abs | Abx | Aby | Ind | Iax => 2
  }

  /** No operand text is longer than `MaxOperandText`, so from an empty
      `disasm_buf` every printer's bounds check passes and the text, with its
      terminator, fits the buffer. */
  lemma OperandTextFits(m: Mode, ram: Ram, p: word)
    ensures |OperandText(m, ram, p)| <= MaxOperandText
    ensures MaxOperandText + 1 <= BufSize
  {
  }

  /** The operand text depends only on the operand bytes the format's length
      counts: two memories that agree on those bytes print the same text. */
  lemma OperandReadsItsLength(m: Mode, ram: Ram, ram': Ram, p: word)
    requires forall j | 0 <= j < OperandLength(m) :: ram[Offset(p, j)] == ram'[Offset(p, j)]
    ensures OperandText(m, ram, p) == OperandText(m, ram', p)
  {
    if OperandLength(m) >= 1 {
      assert ram[Offset(p, 0)] == ram'[Offset(p, 0)];
      assert Offset(p, 0) == p;
    }
    if OperandLength(m) == 2 {
      assert ram[Offset(p, 1)] == ram'[Offset(p, 1)];
      assert Offset(p, 1) == Next(p);
    }
  }

  /** A printed absolute operand reads back, with the monitor's own address
      parser, as the word it came from. */
  lemma AbsTextReadsBack(ram: Ram, p: word, rest: string)
    requires !IsHexDigit(At(rest, 0))
    ensures ReadAddress(AbsText(ram, p) + rest, 0) == Some((Word(ram, p), 5))
  {
    ReadAddressOfHex4(Word(ram, p), rest);
  }

  // ---------------------------------------------------------------------
  // The line `disassemble` prints (test/monitor.c:1207-1226)

  /** The `"%02X "` column for the `n` bytes from `a`. */
  function ByteColumn(ram: Ram, a: word, n: nat): (t: string)
    ensures |t| == 3 * n
  {
    if n == 0 then "" else ByteColumn(ram, a, n - 1) + Hex2(ram[Offset(a, n - 1)]) + " "
  }

  /** `k` times three spaces. */
  function Padding(k: nat): (t: string)
    ensures |t| == 3 * k
  {
    if k == 0 then "" else Padding(k - 1) + "   "
  }

  /** The loops of `disassemble` that print the instruction's bytes, moving
      the address over them, and then the padding that lines the mnemonics
      up. */
  method ByteColumns(ram: Ram, a: word, len: nat) returns (col: string, p: word)
    requires len <= 3
    ensures col == ByteColumn(ram, a, len + 1) + Padding(4 - len)
    ensures p == Offset(a, len + 1)
  {
    col := "";
    var i := 0;
    p := a;
    OffsetZero(a);
    while i <= len
      invariant i <= len + 1
      invariant p == Offset(a, i)
      invariant col == ByteColumn(ram, a, i)
    {
      col := col + Hex2(ram[p]) + " ";
      NextOffset(a, i);
      p := Next(p);
      i := i + 1;
    }
    assert i == len + 1;
    var bytes := col;
    i := len;
    while i <= 3
      invariant len <= i <= 4
      invariant col == bytes + Padding(i - len)
    {
      PaddingMore(bytes, i - len);
      col := col + "   ";
      i := i + 1;
      assert col == bytes + Padding(i - len);
    }
    assert i == 4;
  }

  lemma PaddingMore(t: string, k: nat)
    ensures t + Padding(k) + "   " == t + Padding(k + 1)
  {
  }

  /** The line `disassemble` prints for the instruction at `a`: its address,
      its bytes padded to a fixed column, the mnemonic and the operand. */
  function Line(ram: Ram, a: word): string {
    var op := ram[a];
    var len := OperandLength(ModeOf(op));
    "$" + Hex4(a) + "\t" + (ByteColumn(ram, a, len + 1) + Padding(4 - len))
      + "\t" + Mnemonic(op) + "\t" + OperandText(ModeOf(op), ram, Next(a)) + "\n"
  }

  /** The instruction's bytes and their padding always fill 15 characters,
      so the mnemonic column lines up whatever the instruction's length. */
  lemma ColumnsAlign(ram: Ram, a: word)
    ensures var len := OperandLength(ModeOf(ram[a]));
      |ByteColumn(ram, a, len + 1) + Padding(4 - len)| == 15
  {
  }

  /** The byte column holds, three characters apart, each byte of the
      instruction as two hexadecimal digits. */
  lemma ByteColumnAt(ram: Ram, a: word, n: nat, j: nat)
    requires j < n
    ensures ByteColumn(ram, a, n)[3 * j..3 * j + 3] == Hex2(ram[Offset(a, j)]) + " "
    decreases n
  {
    var prev := ByteColumn(ram, a, n - 1);
    var last := Hex2(ram[Offset(a, n - 1)]) + " ";
    assert ByteColumn(ram, a, n) == prev + last;
    if j < n - 1 {
      ByteColumnAt(ram, a, n - 1, j);
      assert (prev + last)[3 * j..3 * j + 3] == prev[3 * j..3 * j + 3];
    } else {
      assert (prev + last)[3 * j..3 * j + 3] == last;
    }
  }

  /** Each byte in the column reads back with `readbyte`, the parser the
      monitor's input command uses. */
  lemma ByteColumnReadsBack(ram: Ram, a: word, n: nat, j: nat)
    requires j < n
    ensures ReadByte(ByteColumn(ram, a, n), 3 * j) == Some((ram[Offset(a, j)], (3 * j + 2) as nat))
  {
    var col := ByteColumn(ram, a, n);
    var b := ram[Offset(a, j)];
    ByteColumnAt(ram, a, n, j);
    assert At(col, 3 * j) == Hex2(b)[0] && At(col, 3 * j + 1) == Hex2(b)[1];
    ReadByteOfDigits(col, 3 * j, b / 16, b % 16);
  }

  // ---------------------------------------------------------------------
  // The printers (test/monitor.c:817-939) and `disassemble`

  /** The disassembler's state: `address_disasm` and the text in
      `disasm_buf` up to `disasm_ptr`. */
  class Disassembler {
    var address: word
    var buf: string

    constructor (start: word)
      ensures address == start && buf == ""
    {
      address := start;
      buf := "";
    }

    /** `disasmoutchr`: appends one character while there is room. */
    method OutChr(c: char)
      modifies this
      ensures buf == (if |old(buf)| < BufSize then old(buf) + [c] else old(buf))
      ensures address == old(address)
    {
      if |buf| < BufSize {
        buf := buf + [c];
      }
    }

    /** `disasmoutstr`: appends a string when the buffer is not yet full. */
    method OutStr(t: string)
      modifies this
      ensures buf == (if |old(buf)| < BufSize then old(buf) + t else old(buf))
      ensures address == old(address)
    {
      if |buf| < BufSize {
        buf := buf + t;
      }
    }

    /** `disasmoutzp`: appends `$` and the byte at `p` in hexadecimal. */
    method OutZp(ram: Ram, p: word)
      modifies this
      ensures buf == (if |old(buf)| < BufSize then old(buf) + ZpText(ram, p) else old(buf))
      ensures address == old(address)
    {
      if |buf| < BufSize {
        var zp := ram[p];
        buf := buf + "$" + Hex2(zp);
      }
    }

    /** `disasmoutabs`: appends `$` and the little-endian word at `p`; the
        pointer to the high byte wraps like the `uint16_t` it is. */
    method OutAbs(ram: Ram, p: word)
      modifies this
      ensures buf == (if |old(buf)| < BufSize then old(buf) + AbsText(ram, p) else old(buf))
      ensures address == old(address)
    {
      if |buf| < BufSize {
        var pabs := p;
        var abs: int := ram[pabs];
        pabs := Next(pabs);
        abs := abs + (ram[pabs] as int) * 0x100;
        buf := buf + "$" + Hex4(abs);
      }
    }

    /** `disasm_0` */
    method DisasmImplied(ram: Ram, p: word) returns (len: nat)
      requires |buf| + MaxOperandText <= BufSize
      modifies this
      ensures buf == old(buf) + OperandText(Implied, ram, p) && len == 0
      ensures address == old(address)
    {
      len := 0;
    }

    /** `disasm_imm` */
    method DisasmImm(ram: Ram, p: word) returns (len: nat)
      requires |buf| + MaxOperandText <= BufSize
      modifies this
      ensures buf == old(buf) + OperandText(Imm, ram, p) && len == 1
      ensures address == old(address)
    {
      OutChr('#');
      OutZp(ram, p);
      len := 1;
    }

    /** `disasm_zp` */
    method DisasmZp(ram: Ram, p: word) returns (len: nat)
      requires |buf| + MaxOperandText <= BufSize
      modifies this
      ensures buf == old(buf) + OperandText(Zp, ram, p) && len == 1
      ensures address == old(address)
    {
      OutZp(ram, p);
      len := 1;
    }

    /** `disasm_zpx` */
    method DisasmZpx(ram: Ram, p: word) returns (len: nat)
      requires |buf| + MaxOperandText <= BufSize
      modifies this
      ensures buf == old(buf) + OperandText(Zpx, ram, p) && len == 1
      ensures address == old(address)
    {
      OutZp(ram, p);
      OutStr(",X");
      len := 1;
    }

    /** `disasm_zpy` */
    method DisasmZpy(ram: Ram, p: word) returns (len: nat)
      requires |buf| + MaxOperandText <= BufSize
      modifies this
      ensures buf == old(buf) + OperandText(Zpy, ram, p) && len == 1
      ensures address == old(address)
    {
      OutZp(ram, p);
      OutStr(",Y");
      len := 1;
    }

    /** `disasm_zpr` */
    method DisasmZpr(ram: Ram, p: word) returns (len: nat)
      requires |buf| + MaxOperandText <= BufSize
      modifies this
      ensures buf == old(buf) + OperandText(Zpr, ram, p) && len == 2
      ensures address == old(address)
    {
      OutZp(ram, p);
      OutChr(',');
      OutZp(ram, Next(p));
      len := 2;
    }

    /** `disasm_izp` */
    method DisasmIzp(ram: Ram, p: word) returns (len: nat)
      requires |buf| + MaxOperandText <= BufSize
      modifies this
      ensures buf == old(buf) + OperandText(Izp, ram, p) && len == 1
      ensures address == old(address)
    {
      OutChr('(');
      OutZp(ram, p);
      OutChr(')');
      len := 1;
    }

    /** `disasm_izx` */
    method DisasmIzx(ram: Ram, p: word) returns (len: nat)
      requires |buf| + MaxOperandText <= BufSize
      modifies this
      ensures buf == old(buf) + OperandText(Izx, ram, p) && len == 1
      ensures address == old(address)
    {
      OutChr('(');
      OutZp(ram, p);
      OutStr(",X");
      OutChr(')');
      len := 1;
    }

    /** `disasm_izy` */
    method DisasmIzy(ram: Ram, p: word) returns (len: nat)
      requires |buf| + MaxOperandText <= BufSize
      modifies this
      ensures buf == old(buf) + OperandText(Izy, ram, p) && len == 1
      ensures address == old(address)
    {
      OutChr('(');
      OutZp(ram, p);
      OutStr("),Y");
      len := 1;
    }

    /** `disasm_abs` */
    method DisasmAbs(ram: Ram, p: word) returns (len: nat)
      requires |buf| + MaxOperandText <= BufSize
      modifies this
      ensures buf == old(buf) + OperandText(Abs, ram, p) && len == 2
      ensures address == old(address)
    {
      OutAbs(ram, p);
      len := 2;
    }

    /** `disasm_abx` */
    method DisasmAbx(ram: Ram, p: word) returns (len: nat)
      requires |buf| + MaxOperandText <= BufSize
      modifies this
      ensures buf == old(buf) + OperandText(Abx, ram, p) && len == 2
      ensures address == old(address)
    {
      OutAbs(ram, p);
      OutStr(",X");
      len := 2;
    }

    /** `disasm_aby` */
    method DisasmAby(ram: Ram, p: word) returns (len: nat)
      requires |buf| + MaxOperandText <= BufSize
      modifies this
      ensures buf == old(buf) + OperandText(Aby, ram, p) && len == 2
      ensures address == old(address)
    {
      OutAbs(ram, p);
      OutStr(",Y");
      len := 2;
    }

    /** `disasm_ind` */
    method DisasmInd(ram: Ram, p: word) returns (len: nat)
      requires |buf| + MaxOperandText <= BufSize
      modifies this
      ensures buf == old(buf) + OperandText(Ind, ram, p) && len == 2
      ensures address == old(address)
    {
      OutChr('(');
      OutAbs(ram, p);
      OutChr(')');
      len := 2;
    }

    /** `disasm_iax` */
    method DisasmIax(ram: Ram, p: word) returns (len: nat)
      requires |buf| + MaxOperandText <= BufSize
      modifies this
      ensures buf == old(buf) + OperandText(Iax, ram, p) && len == 2
      ensures address == old(address)
    {
      OutChr('(');
      OutAbs(ram, p);
      OutStr(",X)");
      len := 2;
    }

    /** The call through the table's printer pointer: appends format `m`'s
        text for the operand at `p` and returns the operand's length. With
        room for the longest operand, no bounds check fails. */
    method Operand(m: Mode, ram: Ram, p: word) returns (len: nat)
      requires |buf| + MaxOperandText <= BufSize
      modifies this
      ensures buf == old(buf) + OperandText(m, ram, p)
      ensures len == OperandLength(m)
      ensures address == old(address)
    {
      match m
      case Implied => len := DisasmImplied(ram, p);
      case Imm => len := DisasmImm(ram, p);
      case Zp => len := DisasmZp(ram, p);
      case Zpx => len := DisasmZpx(ram, p);
      case Zpy => len := DisasmZpy(ram, p);
      case Zpr => len := DisasmZpr(ram, p);
      case Izp => len := DisasmIzp(ram, p);
      case Izx => len := DisasmIzx(ram, p);
      case Izy => len := DisasmIzy(ram, p);
      case Abs => len := DisasmAbs(ram, p);
      case Abx => len := DisasmAbx(ram, p);
      case Aby => len := DisasmAby(ram, p);
      case Ind => len := DisasmInd(ram, p);
      case Iax => len := DisasmIax(ram, p);
    }

    /** `disassemble`: prints the line for the instruction at
        `address_disasm` and moves the address past the instruction,
        wrapping at 64 KiB. */
    method Disassemble(ram: Ram) returns (line: string)
      modifies this
      ensures line == Line(ram, old(address))
      ensures address == Offset(old(address), OperandLength(ModeOf(ram[old(address)])) + 1)
      ensures buf == OperandText(ModeOf(ram[old(address)]), ram, Next(old(address)))
    {
      var a := address;
      var op := ram[address];
      buf := "";
      var len := Operand(ModeOf(op), ram, Next(address));
      var col, p := ByteColumns(ram, a, len);
      address := p;
      line := "$" + Hex4(a) + "\t" + col + "\t" + Mnemonic(op) + "\t" + buf + "\n";
    }
  }
}
