/**
 * The instruction decoder of the single-header build (include/w65c02s.h):
 * the two 256-entry tables that give each opcode its addressing mode and its
 * operation, and the lookup `w65c02s_decode`. The tables are written as
 * functions of the opcode's high and low nibble; row `h`, column `l` is
 * opcode 16 * h + l.
 */
module Decode {
  import opened Alu

  // `cpu->mode` values (include/w65c02s.h:800-836)
  const ModeImplied := 0
  const ModeImpliedX := 1
  const ModeImpliedY := 2
  const ModeImmediate := 3
  const ModeRelative := 4
  const ModeRelativeBit := 5
  const ModeZeropage := 6
  const ModeZeropageX := 7
  const ModeZeropageY := 8
  const ModeZeropageBit := 9
  const ModeAbsolute := 10
  const ModeAbsoluteX := 11
  const ModeAbsoluteY := 12
  const ModeZeropageIndirect := 13
  const ModeZeropageIndirectX := 14
  const ModeZeropageIndirectY := 15
  const ModeAbsoluteIndirect := 16
  const ModeAbsoluteIndirectX := 17
  const ModeAbsoluteJump := 18
  const ModeRmwZeropage := 19
  const ModeRmwZeropageX := 20
  const ModeSubroutine := 21
  const ModeReturnSub := 22
  const ModeRmwAbsolute := 23
  const ModeRmwAbsoluteX := 24
  const ModeNop5c := 25
  const ModeIntWaitStop := 26
  const ModeStackPush := 27
  const ModeStackPull := 28
  const ModeStackBrk := 29
  const ModeStackRti := 30
  const ModeImplied1c := 31

  // operations that are the only ones of their mode (include/w65c02s.h:914-918)
  const OperNop := 0
  const OperBrk := 0

  /** `w65c02s_modes` (include/w65c02s.h:2103-2232). */
  function ModeAt(h: int, l: int): int {
    match h
    case 0 => (match l
      case 0 => ModeStackBrk
      case 1 => ModeZeropageIndirectX
      case 2 => ModeImmediate
      case 3 => ModeImplied1c
      case 4 => ModeRmwZeropage
      case 5 => ModeZeropage
      case 6 => ModeRmwZeropage
      case 7 => ModeZeropageBit
      case 8 => ModeStackPush
      case 9 => ModeImmediate
      case 10 => ModeImplied
      case 11 => ModeImplied1c
      case 12 => ModeRmwAbsolute
      case 13 => ModeAbsolute
      case 14 => ModeRmwAbsolute
      case _ => ModeRelativeBit)
    case 1 => (match l
      case 0 => ModeRelative
      case 1 => ModeZeropageIndirectY
      case 2 => ModeZeropageIndirect
      case 3 => ModeImplied1c
      case 4 => ModeRmwZeropage
      case 5 => ModeZeropageX
      case 6 => ModeRmwZeropageX
      case 7 => ModeZeropageBit
      case 8 => ModeImplied
      case 9 => ModeAbsoluteY
      case 10 => ModeImplied
      case 11 => ModeImplied1c
      case 12 => ModeRmwAbsolute
      case 13 => ModeAbsoluteX
      case 14 => ModeRmwAbsoluteX
      case _ => ModeRelativeBit)
    case 2 => (match l
      case 0 => ModeSubroutine
      case 1 => ModeZeropageIndirectX
      case 2 => ModeImmediate
      case 3 => ModeImplied1c
      case 4 => ModeZeropage
      case 5 => ModeZeropage
      case 6 => ModeRmwZeropage
      case 7 => ModeZeropageBit
      case 8 => ModeStackPull
      case 9 => ModeImmediate
      case 10 => ModeImplied
      case 11 => ModeImplied1c
      case 12 => ModeAbsolute
      case 13 => ModeAbsolute
      case 14 => ModeRmwAbsolute
      case _ => ModeRelativeBit)
    case 3 => (match l
      case 0 => ModeRelative
      case 1 => ModeZeropageIndirectY
      case 2 => ModeZeropageIndirect
      case 3 => ModeImplied1c
      case 4 => ModeZeropageX
      case 5 => ModeZeropageX
      case 6 => ModeRmwZeropageX
      case 7 => ModeZeropageBit
      case 8 => ModeImplied
      case 9 => ModeAbsoluteY
      case 10 => ModeImplied
      case 11 => ModeImplied1c
      case 12 => ModeAbsoluteX
      case 13 => ModeAbsoluteX
      case 14 => ModeRmwAbsoluteX
      case _ => ModeRelativeBit)
    case 4 => (match l
      case 0 => ModeStackRti
      case 1 => ModeZeropageIndirectX
      case 2 => ModeImmediate
      case 3 => ModeImplied1c
      case 4 => ModeZeropage
      case 5 => ModeZeropage
      case 6 => ModeRmwZeropage
      case 7 => ModeZeropageBit
      case 8 => ModeStackPush
      case 9 => ModeImmediate
      case 10 => ModeImplied
      case 11 => ModeImplied1c
      case 12 => ModeAbsoluteJump
      case 13 => ModeAbsolute
      case 14 => ModeRmwAbsolute
      case _ => ModeRelativeBit)
    case 5 => (match l
      case 0 => ModeRelative
      case 1 => ModeZeropageIndirectY
      case 2 => ModeZeropageIndirect
      case 3 => ModeImplied1c
      case 4 => ModeZeropageX
      case 5 => ModeZeropageX
      case 6 => ModeRmwZeropageX
      case 7 => ModeZeropageBit
      case 8 => ModeImplied
      case 9 => ModeAbsoluteY
      case 10 => ModeStackPush
      case 11 => ModeImplied1c
      case 12 => ModeNop5c
      case 13 => ModeAbsoluteX
      case 14 => ModeRmwAbsoluteX
      case _ => ModeRelativeBit)
    case 6 => (match l
      case 0 => ModeReturnSub
      case 1 => ModeZeropageIndirectX
      case 2 => ModeImmediate
      case 3 => ModeImplied1c
      case 4 => ModeZeropage
      case 5 => ModeZeropage
      case 6 => ModeRmwZeropage
      case 7 => ModeZeropageBit
      case 8 => ModeStackPull
      case 9 => ModeImmediate
      case 10 => ModeImplied
      case 11 => ModeImplied1c
      case 12 => ModeAbsoluteIndirect
      case 13 => ModeAbsolute
      case 14 => ModeRmwAbsolute
      case _ => ModeRelativeBit)
    case 7 => (match l
      case 0 => ModeRelative
      case 1 => ModeZeropageIndirectY
      case 2 => ModeZeropageIndirect
      case 3 => ModeImplied1c
      case 4 => ModeZeropageX
      case 5 => ModeZeropageX
      case 6 => ModeRmwZeropageX
      case 7 => ModeZeropageBit
      case 8 => ModeImplied
      case 9 => ModeAbsoluteY
      case 10 => ModeStackPull
      case 11 => ModeImplied1c
      case 12 => ModeAbsoluteIndirectX
      case 13 => ModeAbsoluteX
      case 14 => ModeRmwAbsoluteX
      case _ => ModeRelativeBit)
    case 8 => (match l
      case 0 => ModeRelative
      case 1 => ModeZeropageIndirectX
      case 2 => ModeImmediate
      case 3 => ModeImplied1c
      case 4 => ModeZeropage
      case 5 => ModeZeropage
      case 6 => ModeZeropage
      case 7 => ModeZeropageBit
      case 8 => ModeImpliedY
      case 9 => ModeImmediate
      case 10 => ModeImplied
      case 11 => ModeImplied1c
      case 12 => ModeAbsolute
      case 13 => ModeAbsolute
      case 14 => ModeAbsolute
      case _ => ModeRelativeBit)
    case 9 => (match l
      case 0 => ModeRelative
      case 1 => ModeZeropageIndirectY
      case 2 => ModeZeropageIndirect
      case 3 => ModeImplied1c
      case 4 => ModeZeropageX
      case 5 => ModeZeropageX
      case 6 => ModeZeropageY
      case 7 => ModeZeropageBit
      case 8 => ModeImplied
      case 9 => ModeAbsoluteY
      case 10 => ModeImplied
      case 11 => ModeImplied1c
      case 12 => ModeAbsolute
      case 13 => ModeAbsoluteX
      case 14 => ModeAbsoluteX
      case _ => ModeRelativeBit)
    case 10 => (match l
      case 0 => ModeImmediate
      case 1 => ModeZeropageIndirectX
      case 2 => ModeImmediate
      case 3 => ModeImplied1c
      case 4 => ModeZeropage
      case 5 => ModeZeropage
      case 6 => ModeZeropage
      case 7 => ModeZeropageBit
      case 8 => ModeImplied
      case 9 => ModeImmediate
      case 10 => ModeImplied
      case 11 => ModeImplied1c
      case 12 => ModeAbsolute
      case 13 => ModeAbsolute
      case 14 => ModeAbsolute
      case _ => ModeRelativeBit)
    case 11 => (match l
      case 0 => ModeRelative
      case 1 => ModeZeropageIndirectY
      case 2 => ModeZeropageIndirect
      case 3 => ModeImplied1c
      case 4 => ModeZeropageX
      case 5 => ModeZeropageX
      case 6 => ModeZeropageY
      case 7 => ModeZeropageBit
      case 8 => ModeImplied
      case 9 => ModeAbsoluteY
      case 10 => ModeImplied
      case 11 => ModeImplied1c
      case 12 => ModeAbsoluteX
      case 13 => ModeAbsoluteX
      case 14 => ModeAbsoluteY
      case _ => ModeRelativeBit)
    case 12 => (match l
      case 0 => ModeImmediate
      case 1 => ModeZeropageIndirectX
      case 2 => ModeImmediate
      case 3 => ModeImplied1c
      case 4 => ModeZeropage
      case 5 => ModeZeropage
      case 6 => ModeRmwZeropage
      case 7 => ModeZeropageBit
      case 8 => ModeImpliedY
      case 9 => ModeImmediate
      case 10 => ModeImpliedX
      case 11 => ModeIntWaitStop
      case 12 => ModeAbsolute
      case 13 => ModeAbsolute
      case 14 => ModeRmwAbsolute
      case _ => ModeRelativeBit)
    case 13 => (match l
      case 0 => ModeRelative
      case 1 => ModeZeropageIndirectY
      case 2 => ModeZeropageIndirect
      case 3 => ModeImplied1c
      case 4 => ModeZeropageX
      case 5 => ModeZeropageX
      case 6 => ModeRmwZeropageX
      case 7 => ModeZeropageBit
      case 8 => ModeImplied
      case 9 => ModeAbsoluteY
      case 10 => ModeStackPush
      case 11 => ModeIntWaitStop
      case 12 => ModeAbsolute
      case 13 => ModeAbsoluteX
      case 14 => ModeRmwAbsoluteX
      case _ => ModeRelativeBit)
    case 14 => (match l
      case 0 => ModeImmediate
      case 1 => ModeZeropageIndirectX
      case 2 => ModeImmediate
      case 3 => ModeImplied1c
      case 4 => ModeZeropage
      case 5 => ModeZeropage
      case 6 => ModeRmwZeropage
      case 7 => ModeZeropageBit
      case 8 => ModeImpliedX
      case 9 => ModeImmediate
      case 10 => ModeImplied
      case 11 => ModeImplied1c
      case 12 => ModeAbsolute
      case 13 => ModeAbsolute
      case 14 => ModeRmwAbsolute
      case _ => ModeRelativeBit)
    case _ => (match l
      case 0 => ModeRelative
      case 1 => ModeZeropageIndirectY
      case 2 => ModeZeropageIndirect
      case 3 => ModeImplied1c
      case 4 => ModeZeropageX
      case 5 => ModeZeropageX
      case 6 => ModeRmwZeropageX
      case 7 => ModeZeropageBit
      case 8 => ModeImplied
      case 9 => ModeAbsoluteY
      case 10 => ModeStackPull
      case 11 => ModeImplied1c
      case 12 => ModeAbsolute
      case 13 => ModeAbsoluteX
      case 14 => ModeRmwAbsoluteX
      case _ => ModeRelativeBit)
  }

  /** `w65c02s_opers` (include/w65c02s.h:2257-2322); each entry is the
      numeric value of the `W65C02S_OPER_` constant written there. */
  function OperAt(h: int, l: int): int {
    match h
    case 0 => (match l
      case 0 => 0  // BRK
      case 1 => 3  // ORA
      case 2 => 0  // NOP
      case 3 => 0  // NOP
      case 4 => 7  // TSB
      case 5 => 3  // ORA
      case 6 => 3  // ASL
      case 7 => 0  // bit 000
      case 8 => 0  // PHP
      case 9 => 3  // ORA
      case 10 => 3  // ASL
      case 11 => 0  // NOP
      case 12 => 7  // TSB
      case 13 => 3  // ORA
      case 14 => 3  // ASL
      case _ => 0)  // bit 000
    case 1 => (match l
      case 0 => 0  // BPL
      case 1 => 3  // ORA
      case 2 => 3  // ORA
      case 3 => 0  // NOP
      case 4 => 8  // TRB
      case 5 => 3  // ORA
      case 6 => 3  // ASL
      case 7 => 1  // bit 001
      case 8 => 8  // CLC
      case 9 => 3  // ORA
      case 10 => 2  // INC
      case 11 => 0  // NOP
      case 12 => 8  // TRB
      case 13 => 3  // ORA
      case 14 => 3  // ASL
      case _ => 1)  // bit 001
    case 2 => (match l
      case 0 => 0  // JSR
      case 1 => 1  // AND
      case 2 => 0  // NOP
      case 3 => 0  // NOP
      case 4 => 9  // BIT
      case 5 => 1  // AND
      case 6 => 4  // ROL
      case 7 => 2  // bit 002
      case 8 => 0  // PLP
      case 9 => 1  // AND
      case 10 => 4  // ROL
      case 11 => 0  // NOP
      case 12 => 9  // BIT
      case 13 => 1  // AND
      case 14 => 4  // ROL
      case _ => 2)  // bit 002
    case 3 => (match l
      case 0 => 1  // BMI
      case 1 => 1  // AND
      case 2 => 1  // AND
      case 3 => 0  // NOP
      case 4 => 9  // BIT
      case 5 => 1  // AND
      case 6 => 4  // ROL
      case 7 => 3  // bit 003
      case 8 => 9  // SEC
      case 9 => 1  // AND
      case 10 => 1  // DEC
      case 11 => 0  // NOP
      case 12 => 9  // BIT
      case 13 => 1  // AND
      case 14 => 4  // ROL
      case _ => 3)  // bit 003
    case 4 => (match l
      case 0 => 0  // RTI
      case 1 => 2  // EOR
      case 2 => 0  // NOP
      case 3 => 0  // NOP
      case 4 => 0  // NOP
      case 5 => 2  // EOR
      case 6 => 5  // LSR
      case 7 => 4  // bit 004
      case 8 => 1  // PHA
      case 9 => 2  // EOR
      case 10 => 5  // LSR
      case 11 => 0  // NOP
      case 12 => 0  // JMP
      case 13 => 2  // EOR
      case 14 => 5  // LSR
      case _ => 4)  // bit 004
    case 5 => (match l
      case 0 => 2  // BVC
      case 1 => 2  // EOR
      case 2 => 2  // EOR
      case 3 => 0  // NOP
      case 4 => 0  // NOP
      case 5 => 2  // EOR
      case 6 => 5  // LSR
      case 7 => 5  // bit 005
      case 8 => 10  // CLI
      case 9 => 2  // EOR
      case 10 => 3  // PHY
      case 11 => 0  // NOP
      case 12 => 0  // NOP
      case 13 => 2  // EOR
      case 14 => 5  // LSR
      case _ => 5)  // bit 005
    case 6 => (match l
      case 0 => 0  // RTS
      case 1 => 4  // ADC
      case 2 => 0  // NOP
      case 3 => 0  // NOP
      case 4 => 16  // STZ
      case 5 => 4  // ADC
      case 6 => 6  // ROR
      case 7 => 6  // bit 006
      case 8 => 1  // PLA
      case 9 => 4  // ADC
      case 10 => 6  // ROR
      case 11 => 0  // NOP
      case 12 => 0  // JMP
      case 13 => 4  // ADC
      case 14 => 6  // ROR
      case _ => 6)  // bit 006
    case 7 => (match l
      case 0 => 3  // BVS
      case 1 => 4  // ADC
      case 2 => 4  // ADC
      case 3 => 0  // NOP
      case 4 => 16  // STZ
      case 5 => 4  // ADC
      case 6 => 6  // ROR
      case 7 => 7  // bit 007
      case 8 => 11  // SEI
      case 9 => 4  // ADC
      case 10 => 3  // PLY
      case 11 => 0  // NOP
      case 12 => 0  // JMP
      case 13 => 4  // ADC
      case 14 => 6  // ROR
      case _ => 7)  // bit 007
    case 8 => (match l
      case 0 => 8  // BRA
      case 1 => 13  // STA
      case 2 => 0  // NOP
      case 3 => 0  // NOP
      case 4 => 15  // STY
      case 5 => 13  // STA
      case 6 => 14  // STX
      case 7 => 8  // bit 010
      case 8 => 1  // DEC
      case 9 => 9  // BIT
      case 10 => 15  // TXA
      case 11 => 0  // NOP
      case 12 => 15  // STY
      case 13 => 13  // STA
      case 14 => 14  // STX
      case _ => 8)  // bit 010
    case 9 => (match l
      case 0 => 4  // BCC
      case 1 => 13  // STA
      case 2 => 13  // STA
      case 3 => 0  // NOP
      case 4 => 15  // STY
      case 5 => 13  // STA
      case 6 => 14  // STX
      case 7 => 9  // bit 011
      case 8 => 17  // TYA
      case 9 => 13  // STA
      case 10 => 19  // TXS
      case 11 => 0  // NOP
      case 12 => 16  // STZ
      case 13 => 13  // STA
      case 14 => 16  // STZ
      case _ => 9)  // bit 011
    case 10 => (match l
      case 0 => 12  // LDY
      case 1 => 10  // LDA
      case 2 => 11  // LDX
      case 3 => 0  // NOP
      case 4 => 12  // LDY
      case 5 => 10  // LDA
      case 6 => 11  // LDX
      case 7 => 10  // bit 012
      case 8 => 16  // TAY
      case 9 => 10  // LDA
      case 10 => 14  // TAX
      case 11 => 0  // NOP
      case 12 => 12  // LDY
      case 13 => 10  // LDA
      case 14 => 11  // LDX
      case _ => 10)  // bit 012
    case 11 => (match l
      case 0 => 5  // BCS
      case 1 => 10  // LDA
      case 2 => 10  // LDA
      case 3 => 0  // NOP
      case 4 => 12  // LDY
      case 5 => 10  // LDA
      case 6 => 11  // LDX
      case 7 => 11  // bit 013
      case 8 => 7  // CLV
      case 9 => 10  // LDA
      case 10 => 18  // TSX
      case 11 => 0  // NOP
      case 12 => 12  // LDY
      case 13 => 10  // LDA
      case 14 => 11  // LDX
      case _ => 11)  // bit 013
    case 12 => (match l
      case 0 => 8  // CPY
      case 1 => 6  // CMP
      case 2 => 0  // NOP
      case 3 => 0  // NOP
      case 4 => 8  // CPY
      case 5 => 6  // CMP
      case 6 => 1  // DEC
      case 7 => 12  // bit 014
      case 8 => 2  // INC
      case 9 => 6  // CMP
      case 10 => 1  // DEC
      case 11 => 0  // WAI
      case 12 => 8  // CPY
      case 13 => 6  // CMP
      case 14 => 1  // DEC
      case _ => 12)  // bit 014
    case 13 => (match l
      case 0 => 6  // BNE
      case 1 => 6  // CMP
      case 2 => 6  // CMP
      case 3 => 0  // NOP
      case 4 => 0  // NOP
      case 5 => 6  // CMP
      case 6 => 1  // DEC
      case 7 => 13  // bit 015
      case 8 => 12  // CLD
      case 9 => 6  // CMP
      case 10 => 2  // PHX
      case 11 => 1  // STP
      case 12 => 0  // NOP
      case 13 => 6  // CMP
      case 14 => 1  // DEC
      case _ => 13)  // bit 015
    case 14 => (match l
      case 0 => 7  // CPX
      case 1 => 5  // SBC
      case 2 => 0  // NOP
      case 3 => 0  // NOP
      case 4 => 7  // CPX
      case 5 => 5  // SBC
      case 6 => 2  // INC
      case 7 => 14  // bit 016
      case 8 => 2  // INC
      case 9 => 5  // SBC
      case 10 => 0  // NOP
      case 11 => 0  // NOP
      case 12 => 7  // CPX
      case 13 => 5  // SBC
      case 14 => 2  // INC
      case _ => 14)  // bit 016
    case _ => (match l
      case 0 => 7  // BEQ
      case 1 => 5  // SBC
      case 2 => 5  // SBC
      case 3 => 0  // NOP
      case 4 => 0  // NOP
      case 5 => 5  // SBC
      case 6 => 2  // INC
      case 7 => 15  // bit 017
      case 8 => 13  // SED
      case 9 => 5  // SBC
      case 10 => 2  // PLX
      case 11 => 0  // NOP
      case 12 => 0  // NOP
      case 13 => 5  // SBC
      case 14 => 2  // INC
      case _ => 15)  // bit 017
  }

  /** `w65c02s_decode`: the mode and the operation of opcode `ir`. */
  function DecodeOp(ir: byte): (int, int) {
    (ModeAt(ir / 16, ir % 16), OperAt(ir / 16, ir % 16))
  }

  /** Opcode 0 is BRK: the interrupt sequence decodes it to enter the BRK
      stack mode. */
  lemma DecodeZeroIsBrk()
    ensures DecodeOp(0) == (ModeStackBrk, OperBrk)
  {
  }

  /** Every table entry is one of the 32 modes and one of the operation
      numbers 0 to 19. */
  lemma DecodeRange(ir: byte)
    ensures 0 <= DecodeOp(ir).0 <= ModeImplied1c
    ensures 0 <= DecodeOp(ir).1 <= 19
  {
  }

  /** Column 7 holds RMB0-7 and SMB0-7 and nothing else uses the zero-page
      bit mode; the operation number is the high nibble, so bit `ir >> 4 & 7`
      is reset below 0x80 and set from 0x80 on. */
  lemma ZeropageBitOpcodes(ir: byte)
    ensures DecodeOp(ir).0 == ModeZeropageBit <==> ir % 16 == 7
    ensures ir % 16 == 7 ==> DecodeOp(ir).1 == ir / 16
  {
  }

  /** Column F holds BBR0-7 and BBS0-7 and nothing else uses the relative bit
      mode; the operation number is again the high nibble. */
  lemma RelativeBitOpcodes(ir: byte)
    ensures DecodeOp(ir).0 == ModeRelativeBit <==> ir % 16 == 15
    ensures ir % 16 == 15 ==> DecodeOp(ir).1 == ir / 16
  {
  }

  /** The relative mode belongs to the eight conditional branches (opcodes
      0x10, 0x30, ..., 0xF0) and BRA (0x80). */
  lemma BranchOpcodes(ir: byte)
    ensures DecodeOp(ir).0 == ModeRelative <==> ir % 32 == 0x10 || ir == 0x80
    ensures ir % 32 == 0x10 ==> DecodeOp(ir).1 == ir / 32
    ensures ir == 0x80 ==> DecodeOp(ir).1 == OperBra
  {
  }

  /** Decoding and `Branch` together give the 65C02 branch encoding: bits 7
      and 6 of the opcode pick N, V, C or Z and bit 5 the value that makes the
      branch taken; BRA is always taken. */
  lemma BranchEncoding(ir: byte, p: bv8)
    requires ir % 32 == 0x10 || ir == 0x80
    ensures var flag := if ir < 0x40 then FlagN else if ir < 0x80 then FlagV
                        else if ir < 0xC0 then FlagC else FlagZ;
      Branch(DecodeOp(ir).1 as nat, p) <==> ir == 0x80 || Has(p, flag) == (ir / 32 % 2 == 1)
  {
    BranchOpcodes(ir);
  }

  /** RMBn and SMBn clear or set bit n of the operand, n = `ir >> 4 & 7`. */
  lemma RmbSmbEncoding(ir: byte, v: byte)
    requires ir % 16 == 7
    ensures BitSet(DecodeOp(ir).1 as nat, v) as bv8 == SetBits(v as bv8, Mask(ir / 16), ir >= 0x80)
  {
    ZeropageBitOpcodes(ir);
    assert ir / 16 / 8 % 2 == 1 <==> ir >= 0x80;
  }

  /** BBRn and BBSn branch when bit n of the operand is clear or set. */
  lemma BbrBbsEncoding(ir: byte, v: byte)
    requires ir % 16 == 15
    ensures BitBranch(DecodeOp(ir).1 as nat, v) <==> ((v as bv8) & Mask(ir / 16) != 0) == (ir >= 0x80)
  {
    RelativeBitOpcodes(ir);
    assert ir / 16 / 8 % 2 == 1 <==> ir >= 0x80;
  }
}
