/**
 * The ALU of the split build (src/oper.c), an older variant of the
 * operations in include/w65c02s.h. The flag helpers, shifts, rotates, CMP,
 * BIT, TSB/TRB, the `oper_rmw` dispatch and the RMB/SMB/BBR/BBS helpers
 * are the same computations as in the header, and are modelled by the
 * functions of module `Alu`; this module holds what differs:
 *
 *  - decimal ADC and SBC write N, Z and C into `p_adj` only, so the C of P
 *    keeps the carry of the binary sum;
 *  - the branch operations are numbered BRA = 0, BPL..BEQ = 1..8
 *    (src/decode.h:104-112), and every number outside BPL..BEQ branches.
 *
 * Class `SplitCpu` holds the two fields these functions write, `p` and
 * `p_adj`, and mirrors the functions that update them in place.
 */
module OperSplit {
  import opened Alu

  // ---------------------------------------------------------------------
  // Decimal mode (src/oper.c:105-166)

  /** `oper_adc_d` of the split build: the BCD digits and the new `p_adj`
      (P with N, Z and C of the decimal result); P itself is not written. */
  function SplitAdcD(p: bv8, a: byte, b: byte, c: int): (r: (byte, bv8))
    requires 0 <= c <= 1
    ensures IsBcd(a) && IsBcd(b) ==>
      IsBcd(r.0) && BcdValue(r.0) == (BcdValue(a) + BcdValue(b) + c) % 100
      && (Has(r.1, FlagC) <==> BcdValue(a) + BcdValue(b) + c >= 100)
    ensures ShowsNz(r.1, r.0) && Outside(r.1, p, FlagN | FlagZ | FlagC)
  {
    var (hi, lo, fc) := AddBcd(a, b, c);
    var q := Join(hi, lo);
    AddDigitsValue(hi, lo, fc, BcdValue(a) + BcdValue(b) + c);
    (q, DecimalFlags(p, q, fc).1)
  }

  /** `oper_sbc_d` of the split build, `b` already complemented. */
  function SplitSbcD(p: bv8, a: byte, b: byte, c: int): (r: (byte, bv8))
    requires 0 <= c <= 1
    ensures IsBcd(a) && IsBcd(Not(b)) ==>
      IsBcd(r.0) && BcdValue(r.0) == (BcdValue(a) - BcdValue(Not(b)) - (1 - c)) % 100
      && (Has(r.1, FlagC) <==> BcdValue(a) - BcdValue(Not(b)) - (1 - c) >= 0)
    ensures ShowsNz(r.1, r.0) && Outside(r.1, p, FlagN | FlagZ | FlagC)
  {
    var (hi, lo, fc) := SubBcd(a, b, c);
    var q := Join(hi, lo);
    SubDigitsValue(hi, lo, fc, BcdValue(a) - BcdValue(Not(b)) - (1 - c));
    (q, DecimalFlags(p, q, fc).1)
  }

  /** The header's decimal steps are the split build's, plus the decimal
      carry copied into P. */
  lemma DecimalCarryToP(p: bv8, a: byte, b: byte, c: int)
    requires 0 <= c <= 1
    ensures var (q, adj) := SplitAdcD(p, a, b, c);
      Alu.AdcD(p, a, b, c) == (q, SetP(p, FlagC, Has(adj, FlagC)), adj)
    ensures var (q, adj) := SplitSbcD(p, a, b, c);
      Alu.SbcD(p, a, b, c) == (q, SetP(p, FlagC, Has(adj, FlagC)), adj)
  {
    var (hi, lo, fc) := AddBcd(a, b, c);
    assert Has(DecimalFlags(p, Join(hi, lo), fc).1, FlagC) == fc;
    var (hi2, lo2, fc2) := SubBcd(a, b, c);
    assert Has(DecimalFlags(p, Join(hi2, lo2), fc2).1, FlagC) == fc2;
  }

  /** `oper_adc` of the split build: as in the header, but the decimal step
      leaves P as the binary addition set it. */
  function SplitAdc(p: bv8, pAdj: bv8, a: byte, b: byte): (r: (byte, bv8, bv8))
  {
    var c := Carry(p);
    var (v, p2) := AddBinary(p, a, b, c);
    if !Has(p2, FlagD) then (v, p2, pAdj)
    else var t := SplitAdcD(p2, a, b, c); (t.0, p2, t.1)
  }

  /** `oper_sbc` of the split build: `oper_adc` on the complement of `b`,
      with the split `oper_sbc_d`. */
  function SplitSbc(p: bv8, pAdj: bv8, a: byte, b: byte): (r: (byte, bv8, bv8))
  {
    var c := Carry(p);
    var nb := Not(b);
    var (v, p2) := AddBinary(p, a, nb, c);
    if !Has(p2, FlagD) then (v, p2, pAdj)
    else var t := SplitSbcD(p2, a, nb, c); (t.0, p2, t.1)
  }

  /** AddBinary leaves D alone, so the split ADC takes its decimal path
      exactly when D was set on entry, and then keeps P from the binary
      step. */
  lemma SplitAdcSteps(p: bv8, pAdj: bv8, a: byte, b: byte)
    ensures var c := Carry(p); var s := AddBinary(p, a, b, c); var d := SplitAdcD(s.1, a, b, c);
      SplitAdc(p, pAdj, a, b) == if Has(p, FlagD) then (d.0, s.1, d.1) else (s.0, s.1, pAdj)
  {
    var s := AddBinary(p, a, b, Carry(p));
    KeepsFlag(s.1, p, FlagN | FlagV | FlagZ | FlagC, FlagD);
  }

  /** The same for the split SBC, which adds the complement of `b`. */
  lemma SplitSbcSteps(p: bv8, pAdj: bv8, a: byte, b: byte)
    ensures var c := Carry(p); var s := AddBinary(p, a, Not(b), c); var d := SplitSbcD(s.1, a, Not(b), c);
      SplitSbc(p, pAdj, a, b) == if Has(p, FlagD) then (d.0, s.1, d.1) else (s.0, s.1, pAdj)
  {
    var s := AddBinary(p, a, Not(b), Carry(p));
    KeepsFlag(s.1, p, FlagN | FlagV | FlagZ | FlagC, FlagD);
  }

  /** In both modes P is exactly what the binary addition leaves: C is the
      carry out of the nine-bit sum and V the signed overflow. In decimal
      mode `p_adj` carries the decimal N and Z. */
  lemma AdcFlags(p: bv8, pAdj: bv8, a: byte, b: byte)
    ensures var r := SplitAdc(p, pAdj, a, b);
      r.1 == AddBinary(p, a, b, Carry(p)).1
      && (Has(r.1, FlagC) <==> a + b + Carry(p) >= 256)
      && (Has(r.1, FlagV) <==> !(-128 <= Signed(a) + Signed(b) + Carry(p) <= 127))
      && Outside(r.1, p, FlagN | FlagV | FlagZ | FlagC)
    ensures Has(p, FlagD) ==> ShowsNz(SplitAdc(p, pAdj, a, b).2, SplitAdc(p, pAdj, a, b).0)
  {
    SplitAdcSteps(p, pAdj, a, b);
  }

  /** The same for SBC: C means "no borrow" in the binary difference. */
  lemma SbcFlags(p: bv8, pAdj: bv8, a: byte, b: byte)
    ensures var r := SplitSbc(p, pAdj, a, b);
      r.1 == AddBinary(p, a, Not(b), Carry(p)).1
      && (Has(r.1, FlagC) <==> a - b - (1 - Carry(p)) >= 0)
      && (Has(r.1, FlagV) <==> !(-128 <= Signed(a) - Signed(b) - (1 - Carry(p)) <= 127))
      && Outside(r.1, p, FlagN | FlagV | FlagZ | FlagC)
    ensures Has(p, FlagD) ==> ShowsNz(SplitSbc(p, pAdj, a, b).2, SplitSbc(p, pAdj, a, b).0)
  {
    SubtractByAdding(a, b, Carry(p));
    SplitSbcSteps(p, pAdj, a, b);
  }

  /** Decimal ADC on BCD operands: the BCD digits of the sum modulo 100,
      with the decimal carry in `p_adj`. */
  lemma AdcDecimal(p: bv8, pAdj: bv8, a: byte, b: byte)
    requires Has(p, FlagD) && IsBcd(a) && IsBcd(b)
    ensures var r := SplitAdc(p, pAdj, a, b);
      IsBcd(r.0) && BcdValue(r.0) == (BcdValue(a) + BcdValue(b) + Carry(p)) % 100
      && (Has(r.2, FlagC) <==> BcdValue(a) + BcdValue(b) + Carry(p) >= 100)
  {
    SplitAdcSteps(p, pAdj, a, b);
  }

  /** Decimal SBC on BCD operands: the BCD digits of the difference modulo
      100, with "no borrow" in `p_adj`. */
  lemma SbcDecimal(p: bv8, pAdj: bv8, a: byte, b: byte)
    requires Has(p, FlagD) && IsBcd(a) && IsBcd(b)
    ensures var r := SplitSbc(p, pAdj, a, b);
      IsBcd(r.0) && BcdValue(r.0) == (BcdValue(a) - BcdValue(b) - (1 - Carry(p))) % 100
      && (Has(r.2, FlagC) <==> BcdValue(a) - BcdValue(b) - (1 - Carry(p)) >= 0)
  {
    SplitSbcSteps(p, pAdj, a, b);
    assert Not(Not(b)) == b;
  }

  /** The split ADC and SBC agree with the header's in the value and
      `p_adj`, and in P except that the header's decimal step also copies
      the decimal carry into P. */
  lemma MatchesHeader(p: bv8, pAdj: bv8, a: byte, b: byte)
    ensures var (r, h) := (SplitAdc(p, pAdj, a, b), Alu.Adc(p, pAdj, a, b));
      r.0 == h.0 && r.2 == h.2
      && h.1 == (if Has(p, FlagD) then SetP(r.1, FlagC, Has(r.2, FlagC)) else r.1)
    ensures var (r, h) := (SplitSbc(p, pAdj, a, b), Alu.Sbc(p, pAdj, a, b));
      r.0 == h.0 && r.2 == h.2
      && h.1 == (if Has(p, FlagD) then SetP(r.1, FlagC, Has(r.2, FlagC)) else r.1)
  {
    var c := Carry(p);
    AdcSteps(p, pAdj, a, b);
    SbcSteps(p, pAdj, a, b);
    SplitAdcSteps(p, pAdj, a, b);
    SplitSbcSteps(p, pAdj, a, b);
    DecimalCarryToP(AddBinary(p, a, b, c).1, a, b, c);
    DecimalCarryToP(AddBinary(p, a, Not(b), c).1, a, Not(b), c);
  }

  /** The difference shows: 0x99 + 0x01 in decimal mode is 0x00 with a
      decimal carry; the header puts that carry into P, the split build
      leaves P's C clear (0x99 + 0x01 does not carry in binary). */
  lemma CarryDiffers()
    ensures SplitAdc(FlagD, 0, 0x99, 0x01).0 == 0 && Has(SplitAdc(FlagD, 0, 0x99, 0x01).2, FlagC)
    ensures !Has(SplitAdc(FlagD, 0, 0x99, 0x01).1, FlagC)
    ensures Has(Alu.Adc(FlagD, 0, 0x99, 0x01).1, FlagC)
  {
    var r := SplitAdc(FlagD, 0, 0x99, 0x01);
    assert Carry(FlagD) == 0 && Has(FlagD, FlagD);
    assert IsBcd(0x99) && BcdValue(0x99) == 99 && IsBcd(0x01) && BcdValue(0x01) == 1;
    AdcDecimal(FlagD, 0, 0x99, 0x01);
    assert IsBcd(r.0) && BcdValue(r.0) == 0;
    AdcFlags(FlagD, 0, 0x99, 0x01);
    MatchesHeader(FlagD, 0, 0x99, 0x01);
    assert Has(SetP(r.1, FlagC, true), FlagC);
  }

  /** `w65c02si_oper_alu`: AND, EOR, ORA, the split ADC and SBC; any other
      operation yields `b` with its N and Z. */
  function SplitAlu(p: bv8, pAdj: bv8, op: nat, a: byte, b: byte): (r: (byte, bv8, bv8))
  {
    if op == OperAdc then SplitAdc(p, pAdj, a, b)
    else if op == OperSbc then SplitSbc(p, pAdj, a, b)
    else Logic(p, pAdj, op, a, b)
  }

  /** The split `oper_alu` differs from the header's only where ADC and SBC
      do, and for every other operation is the header's. */
  lemma AluMatchesHeader(p: bv8, pAdj: bv8, op: nat, a: byte, b: byte)
    ensures op != OperAdc && op != OperSbc ==> SplitAlu(p, pAdj, op, a, b) == Alu.AluOp(p, pAdj, op, a, b)
    ensures !Has(p, FlagD) ==> SplitAlu(p, pAdj, op, a, b) == Alu.AluOp(p, pAdj, op, a, b)
    ensures Outside(SplitAlu(p, pAdj, op, a, b).1, p, FlagN | FlagV | FlagZ | FlagC)
  {
    MatchesHeader(p, pAdj, a, b);
    AdcFlags(p, pAdj, a, b);
    SbcFlags(p, pAdj, a, b);
  }

  // ---------------------------------------------------------------------
  // Branches (src/oper.c:180-193, src/decode.h:104-112)

  // The branch numbering of the split build
  const OperBra := 0
  const OperBpl := 1
  const OperBmi := 2
  const OperBvc := 3
  const OperBvs := 4
  const OperBcc := 5
  const OperBcs := 6
  const OperBne := 7
  const OperBeq := 8

  /** `w65c02si_oper_branch`: BPL..BEQ test their flag; anything else,
      BRA included, branches. */
  function SplitBranch(op: nat, p: bv8): (r: bool)
  {
    if op == OperBpl then !Has(p, FlagN)
    else if op == OperBmi then Has(p, FlagN)
    else if op == OperBvc then !Has(p, FlagV)
    else if op == OperBvs then Has(p, FlagV)
    else if op == OperBcc then !Has(p, FlagC)
    else if op == OperBcs then Has(p, FlagC)
    else if op == OperBne then !Has(p, FlagZ)
    else if op == OperBeq then Has(p, FlagZ)
    else true
  }

  /** The header's number of a split-build branch operation. */
  function HeaderBranch(op: nat): (h: nat)
    requires op <= OperBeq
    ensures h <= Alu.OperBra
  {
    if op == OperBra then Alu.OperBra else op - 1
  }

  /** Renumbered, the two `oper_branch` functions agree on the nine branch
      operations; each conditional branch tests one flag, the pairs with
      opposite polarity; past them the split build always branches while
      the header never does. */
  lemma BranchNumbering(op: nat, p: bv8)
    ensures op <= OperBeq ==> SplitBranch(op, p) == Alu.Branch(HeaderBranch(op), p)
    ensures OperBpl <= op <= OperBeq ==>
      (SplitBranch(op, p) <==> Has(p, BranchFlag(op - 1)) == (op % 2 == 0))
    ensures op > OperBeq ==> SplitBranch(op, p) && !Alu.Branch(op, p)
  {
  }

  // ---------------------------------------------------------------------
  // The fields the split ALU writes (src/oper.c:16-178)

  /** The part of `struct w65c02s_cpu` that src/oper.c changes: P and
      `p_adj`. */
  class SplitCpu {
    var p: bv8
    /** P as it should read after a decimal-mode ADC or SBC. */
    var pAdj: bv8

    /** `update_flags_nz` */
    method UpdateFlagsNz(q: byte) returns (r: byte)
      modifies this`p
      ensures r == q && p == MarkNz(old(p), q)
    {
      p := SetP(p, FlagN, q / 0x80 == 1);
      p := SetP(p, FlagZ, q == 0);
      r := q;
    }

    /** `update_flags_nzc` */
    method UpdateFlagsNzc(q: nat, c: nat) returns (r: byte)
      modifies this`p
      ensures (r, p) == MarkNzc(old(p), q, c)
    {
      p := SetP(p, FlagC, c != 0);
      r := UpdateFlagsNz(q % 256);
    }

    /** `update_flags_nzc_adc`: C from bit 8 of a nine-bit sum. */
    method UpdateFlagsNzcAdc(q: nat) returns (r: byte)
      modifies this`p
      ensures (r, p) == MarkNzc8(old(p), q)
    {
      r := UpdateFlagsNzc(q, q / 256);
    }

    /** `w65c02si_oper_rmw` with the shifts, rotates, INC and DEC behind
        it; any other operation returns `v` and leaves P alone. */
    method OperRmw(op: nat, v: byte) returns (r: byte)
      modifies this`p
      ensures (r, p) == Rmw(old(p), op, v)
    {
      if op == Alu.OperAsl {
        r := UpdateFlagsNzc(v * 2, v / 128);
      } else if op == Alu.OperDec {
        r := UpdateFlagsNz((v - 1) % 256);
      } else if op == Alu.OperInc {
        r := UpdateFlagsNz((v + 1) % 256);
      } else if op == Alu.OperLsr {
        r := UpdateFlagsNzc(v / 2, v % 2);
      } else if op == Alu.OperRol {
        r := UpdateFlagsNzc(v * 2 + Carry(p), v / 128);
      } else if op == Alu.OperRor {
        r := UpdateFlagsNzc(v / 2 + Carry(p) * 128, v % 2);
      } else {
        r := v;
      }
    }

    /** `w65c02si_oper_cmp` */
    method OperCmp(a: byte, b: byte)
      modifies this`p
      ensures p == Cmp(old(p), a, b)
    {
      var _ := UpdateFlagsNzcAdc(a + Not(b) + 1);
    }

    /** `w65c02si_oper_bit` */
    method OperBit(a: byte, b: byte)
      modifies this`p
      ensures p == Bit(old(p), a, b)
    {
      p := Bit(p, a, b);
    }

    /** `w65c02si_oper_bit_imm` */
    method OperBitImm(a: byte, b: byte)
      modifies this`p
      ensures p == BitImm(old(p), a, b)
    {
      p := SetP(p, FlagZ, (a as bv8) & (b as bv8) == 0);
    }

    /** `w65c02si_oper_tsb`: TSB when `setBits`, TRB otherwise. */
    method OperTsb(a: byte, b: byte, setBits: bool) returns (r: byte)
      modifies this`p
      ensures (r, p) == Tsb(old(p), a, b, setBits)
    {
      var t := Tsb(p, a, b, setBits);
      r, p := t.0, t.1;
    }

    /** `oper_adc_d`: `p_adj` starts as P and gets the decimal N, Z and C;
        P is not written. */
    method OperAdcD(a: byte, b: byte, c: int) returns (r: byte)
      requires 0 <= c <= 1
      modifies this`pAdj
      ensures (r, pAdj) == SplitAdcD(p, a, b, c)
    {
      var (hi, lo, fc) := AddBcd(a, b, c);
      r := Join(hi, lo);
      var adj := SetP(p, FlagN, r / 0x80 == 1);
      adj := SetP(adj, FlagZ, r == 0);
      pAdj := SetP(adj, FlagC, fc);
    }

    /** `oper_sbc_d`, with `b` already complemented. */
    method OperSbcD(a: byte, b: byte, c: int) returns (r: byte)
      requires 0 <= c <= 1
      modifies this`pAdj
      ensures (r, pAdj) == SplitSbcD(p, a, b, c)
    {
      var (hi, lo, fc) := SubBcd(a, b, c);
      r := Join(hi, lo);
      var adj := SetP(p, FlagN, r / 0x80 == 1);
      adj := SetP(adj, FlagZ, r == 0);
      pAdj := SetP(adj, FlagC, fc);
    }

    /** The binary steps `oper_adc` and `oper_sbc` share: V from
        `oper_adc_v`, then N, Z and C from the nine-bit sum. */
    method AddBinaryStep(a: byte, b: byte, c: int) returns (r: byte)
      requires 0 <= c <= 1
      modifies this`p
      ensures (r, p) == AddBinary(old(p), a, b, c)
    {
      p := SetP(p, FlagV, AdcV(a, b, c) != 0);
      r := UpdateFlagsNzcAdc(a + b + c);
    }

    /** `oper_adc` */
    method OperAdc(a: byte, b: byte) returns (r: byte)
      modifies this`p, this`pAdj
      ensures (r, p, pAdj) == SplitAdc(old(p), old(pAdj), a, b)
    {
      var c := Carry(p);
      r := AddBinaryStep(a, b, c);
      SplitAdcSteps(old(p), old(pAdj), a, b);
      KeepsFlag(p, old(p), FlagN | FlagV | FlagZ | FlagC, FlagD);
      if Has(p, FlagD) {
        r := OperAdcD(a, b, c);
      }
    }

    /** `oper_sbc` */
    method OperSbc(a: byte, b: byte) returns (r: byte)
      modifies this`p, this`pAdj
      ensures (r, p, pAdj) == SplitSbc(old(p), old(pAdj), a, b)
    {
      var c := Carry(p);
      var nb := Not(b);
      r := AddBinaryStep(a, nb, c);
      SplitSbcSteps(old(p), old(pAdj), a, b);
      KeepsFlag(p, old(p), FlagN | FlagV | FlagZ | FlagC, FlagD);
      if Has(p, FlagD) {
        r := OperSbcD(a, nb, c);
      }
    }

    /** `w65c02si_oper_alu` */
    method OperAlu(op: nat, a: byte, b: byte) returns (r: byte)
      modifies this`p, this`pAdj
      ensures (r, p, pAdj) == SplitAlu(old(p), old(pAdj), op, a, b)
    {
      if op == Alu.OperAnd {
        r := UpdateFlagsNz((LogicBits(op, a, b)) as int);
      } else if op == Alu.OperEor {
        r := UpdateFlagsNz((LogicBits(op, a, b)) as int);
      } else if op == Alu.OperOra {
        r := UpdateFlagsNz((LogicBits(op, a, b)) as int);
      } else if op == Alu.OperAdc {
        r := OperAdc(a, b);
      } else if op == Alu.OperSbc {
        r := OperSbc(a, b);
      } else {
        r := UpdateFlagsNz(b);
      }
    }
  }
}
