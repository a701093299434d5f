/**
 The flag logic and the arithmetic/logic unit of the WDC 65C02S single-header
 emulator (`include/w65c02s.h`), as pure functions.

 Data bytes (`uint8_t`) are integers in `0..255`; every place where C truncates
 to eight bits is written out as `% 256`. The processor status register P is a
 `bv8`, because everything done to it is bit setting and testing. An operation
 that in C updates `cpu->p` (and, in decimal mode, `cpu->p_adj`) here takes the
 old register value(s) and returns the result together with the new one(s);
 the `Machine.Cpu` class applies them to its fields.
 */
module Alu {

  type byte = x: int | 0 <= x < 0x100
  type word = x: int | 0 <= x < 0x1_0000

  // The bits of P.
  const FlagN: bv8 := 0x80
  const FlagV: bv8 := 0x40
  const FlagA1: bv8 := 0x20  // always 1
  const FlagB: bv8 := 0x10   // always 1, pushed as 0 by IRQ/NMI
  const FlagD: bv8 := 0x08
  const FlagI: bv8 := 0x04
  const FlagZ: bv8 := 0x02
  const FlagC: bv8 := 0x01

  /** `GET_P(flag)` as a truth value. */
  predicate Has(p: bv8, flag: bv8) { p & flag != 0 }

  /** `GET_P(P_C)`: the carry as the number 0 or 1. */
  function Carry(p: bv8): (r: int)
    ensures 0 <= r <= 1 && (r == 1 <==> Has(p, FlagC))
  {
    if Has(p, FlagC) then 1 else 0
  }

  /** `p` and `q` agree on every bit outside `flags`. */
  predicate Outside(p: bv8, q: bv8, flags: bv8) { p & !flags == q & !flags }

  /** A flag outside the changed set keeps its value. */
  lemma KeepsFlag(q: bv8, p: bv8, flags: bv8, flag: bv8)
    requires Outside(q, p, flags) && flag & flags == 0
    ensures Has(q, flag) == Has(p, flag)
  {
  }

  /** Changing fewer flags is a special case of changing more. */
  lemma OutsideWiden(q: bv8, p: bv8, flags: bv8, more: bv8)
    requires Outside(q, p, flags) && flags & more == flags
    ensures Outside(q, p, more)
  {
  }

  /** N holds bit 7 of `v` and Z says whether `v` is zero. */
  predicate ShowsNz(p: bv8, v: byte) {
    Has(p, FlagN) == (v >= 0x80) && Has(p, FlagZ) == (v == 0)
  }
  /** N and Z survive an update that touches neither. */
  lemma NzOutside(q: bv8, p: bv8, flags: bv8, v: byte)
    requires Outside(q, p, flags) && flags & (FlagN | FlagZ) == 0 && ShowsNz(p, v)
    ensures ShowsNz(q, v)
  {
  }


  /** `SET_P(flag, v)` on the value `p`. */
  function SetP(p: bv8, flag: bv8, v: bool): (r: bv8)
    ensures r & flag == (if v then flag else 0)
    ensures Outside(r, p, flag)
  {
    if v then p | flag else p & !flag
  }

  /** `(uint8_t)~b` */
  function Not(b: byte): byte { 255 - b }


  /** A bit pattern survives the trip through its number. */
  lemma RoundTrip(x: bv8)
    ensures (x as int) as bv8 == x
  {
  }

  /** The value of a byte read as a two's-complement number. */
  function Signed(x: byte): (r: int)
    ensures -128 <= r < 128 && r % 256 == x
  {
    if x < 0x80 then x else x - 256
  }

  // ---------------------------------------------------------------------
  // Flag updates (include/w65c02s.h:930-946)

  /** `mark_nz`: the new P; the value itself is passed through unchanged. */
  function MarkNz(p: bv8, q: byte): (r: bv8)
    ensures ShowsNz(r, q)
    ensures Outside(r, p, FlagN | FlagZ)
  {
    SetP(SetP(p, FlagN, q / 0x80 == 1), FlagZ, q == 0)
  }

  /** `mark_nzc`: C from `c`, then N and Z from the low eight bits of `q`. */
  function MarkNzc(p: bv8, q: nat, c: nat): (r: (byte, bv8))
    ensures r.0 == q % 256
    ensures Has(r.1, FlagC) == (c != 0)
    ensures ShowsNz(r.1, r.0)
    ensures Outside(r.1, p, FlagN | FlagZ | FlagC)
  {
    var v := q % 256;
    (v, MarkNz(SetP(p, FlagC, c != 0), v))
  }

  /** `mark_nzc8`: `q` is a nine-bit sum whose bit 8 is the carry. */
  function MarkNzc8(p: bv8, q: nat): (r: (byte, bv8))
    ensures Has(r.1, FlagC) == (q >= 256)
    ensures ShowsNz(r.1, r.0)
    ensures Outside(r.1, p, FlagN | FlagZ | FlagC)
  {
    MarkNzc(p, q, q / 256)
  }

  // ---------------------------------------------------------------------
  // Read-modify-write operations (include/w65c02s.h:948-978)

  function Inc(p: bv8, v: byte): (r: (byte, bv8))
    ensures ShowsNz(r.1, r.0) && Outside(r.1, p, FlagN | FlagZ)
  {
    var q := (v + 1) % 256;
    (q, MarkNz(p, q))
  }

  function Dec(p: bv8, v: byte): (r: (byte, bv8))
    ensures ShowsNz(r.1, r.0) && Outside(r.1, p, FlagN | FlagZ)
  {
    var q := (v - 1) % 256;
    (q, MarkNz(p, q))
  }

  /** INC and DEC wrap around: each undoes the other on every byte. */
  lemma IncDecInverse(p: bv8, v: byte)
    ensures Dec(p, Inc(p, v).0).0 == v && Inc(p, Dec(p, v).0).0 == v
    ensures Inc(p, 0xFF).0 == 0 && Dec(p, 0).0 == 0xFF
  {
  }

  /** ASL: the carry is the old bit 7, a zero comes in at bit 0. */
  function Asl(p: bv8, v: byte): (r: (byte, bv8))
    ensures Has(r.1, FlagC) == (v >= 0x80)
    ensures r.0 % 2 == 0 && r.0 / 2 == v % 128
    ensures ShowsNz(r.1, r.0) && Outside(r.1, p, FlagN | FlagZ | FlagC)
  {
    MarkNzc(p, v * 2, v / 128)
  }

  /** LSR: the carry is the old bit 0, a zero comes in at bit 7. */
  function Lsr(p: bv8, v: byte): (r: (byte, bv8))
    ensures Has(r.1, FlagC) == (v % 2 == 1)
    ensures r.0 < 0x80 && r.0 * 2 + v % 2 == v
    ensures ShowsNz(r.1, r.0) && Outside(r.1, p, FlagN | FlagZ | FlagC)
  {
    MarkNzc(p, v / 2, v % 2)
  }

  /** ROL: the carry is the old bit 7 and the old carry comes in at bit 0. */
  function Rol(p: bv8, v: byte): (r: (byte, bv8))
    ensures Has(r.1, FlagC) == (v >= 0x80)
    ensures r.0 % 2 == Carry(p) && r.0 / 2 == v % 128
    ensures ShowsNz(r.1, r.0) && Outside(r.1, p, FlagN | FlagZ | FlagC)
  {
    MarkNzc(p, v * 2 + Carry(p), v / 128)
  }

  /** ROR: the carry is the old bit 0 and the old carry comes in at bit 7. */
  function Ror(p: bv8, v: byte): (r: (byte, bv8))
    ensures Has(r.1, FlagC) == (v % 2 == 1)
    ensures r.0 / 128 == Carry(p) && r.0 % 128 == v / 2
    ensures ShowsNz(r.1, r.0) && Outside(r.1, p, FlagN | FlagZ | FlagC)
  {
    MarkNzc(p, v / 2 + Carry(p) * 128, v % 2)
  }

  /** A rotation through the carry is undone by the rotation the other way:
      both the byte and the carry come back. */
  lemma RotateInverse(p: bv8, v: byte)
    ensures var (w, q) := Rol(p, v); Ror(q, w).0 == v && Carry(Ror(q, w).1) == Carry(p)
    ensures var (w, q) := Ror(p, v); Rol(q, w).0 == v && Carry(Rol(q, w).1) == Carry(p)
  {
  }

  /** A shift one way and back loses exactly the bit that went into C. */
  lemma ShiftBack(p: bv8, v: byte)
    ensures Lsr(p, Asl(p, v).0).0 == v % 128
    ensures Asl(p, Lsr(p, v).0).0 == v - v % 2
  {
  }

  // ---------------------------------------------------------------------
  // Addition and subtraction (include/w65c02s.h:980-1051)

  /** `oper_adc_v`: the carry into bit 7 exclusive-or the carry out of it. */
  function AdcV(a: byte, b: byte, c: int): (r: int)
    requires 0 <= c <= 1
    ensures 0 <= r <= 1
    ensures r == 1 <==> !(-128 <= Signed(a) + Signed(b) + c <= 127)
  {
    SignedOverflow(a, b, c);
    var c6 := (a % 128 + b % 128 + c) / 128;
    var c7 := (a + b + c) / 256;
    if c6 == c7 then 0 else 1
  }

  /** The carries into and out of bit 7 differ exactly when the signed sum
      leaves -128..127. */
  lemma SignedOverflow(a: byte, b: byte, c: int)
    requires 0 <= c <= 1
    ensures (a % 128 + b % 128 + c) / 128 == (a + b + c) / 256 <==> -128 <= Signed(a) + Signed(b) + c <= 127
  {
    var al := if a < 128 then a else a - 128;
    var bl := if b < 128 then b else b - 128;
    assert a % 128 == al && b % 128 == bl;
    if al + bl + c >= 128 {
      assert (al + bl + c) / 128 == 1;
    } else {
      assert (al + bl + c) / 128 == 0;
    }
    if a + b + c >= 256 {
      assert (a + b + c) / 256 == 1;
    } else {
      assert (a + b + c) / 256 == 0;
    }
  }

  /** The low and high four bits of a byte, `x & 15` and `x >> 4`. */
  function Lo(x: byte): int { x % 16 }
  function Hi(x: byte): int { x / 16 }

  /** Both nibbles are decimal digits. */
  predicate IsBcd(x: byte) { Lo(x) < 10 && Hi(x) < 10 }

  /** The number 0..99 a valid BCD byte stands for. */
  function BcdValue(x: byte): int { Hi(x) * 10 + Lo(x) }

  /** One BCD digit of an addition: the digit and whether it carries. */
  function AddDigit(x: int, y: int, c: int): (r: (int, bool))
    requires 0 <= x < 16 && 0 <= y < 16 && 0 <= c <= 1
    ensures 0 <= r.0 < 16
    ensures x < 10 && y < 10 ==> r.0 < 10 && r.0 + (if r.1 then 10 else 0) == x + y + c
  {
    var s := x + y + c;
    if s >= 10 then ((s - 10) % 16, true) else (s, false)
  }

  /** One BCD digit of a subtraction whose subtrahend digit `y` is already
      complemented (15 minus the digit): the digit and whether there was no
      borrow. */
  function SubDigit(x: int, y: int, c: int): (r: (int, bool))
    requires 0 <= x < 16 && 0 <= y < 16 && 0 <= c <= 1
    ensures 0 <= r.0 < 16
    ensures x < 10 && 15 - y < 10 ==>
      r.0 < 10 && r.0 - (if r.1 then 0 else 10) == x - (15 - y) - (1 - c)
  {
    var s := x + y + c;
    var hc := s >= 16;
    ((if hc then s else s + 10) % 16, hc)
  }

  /** `(hi << 4) | lo` for two nibbles. */
  function Join(hi: int, lo: int): (r: byte)
    requires 0 <= hi < 16 && 0 <= lo < 16
    ensures Hi(r) == hi && Lo(r) == lo
  {
    hi * 16 + lo
  }

  /** The two digit steps of `oper_adc_d`: high digit, low digit, carry. */
  function AddBcd(a: byte, b: byte, c: int): (r: (int, int, bool))
    requires 0 <= c <= 1
    ensures 0 <= r.0 < 16 && 0 <= r.1 < 16
    ensures IsBcd(a) && IsBcd(b) ==>
      r.0 < 10 && r.1 < 10 && r.0 * 10 + r.1 + (if r.2 then 100 else 0) == BcdValue(a) + BcdValue(b) + c
  {
    var (lo, hc) := AddDigit(Lo(a), Lo(b), c);
    var (hi, fc) := AddDigit(Hi(a), Hi(b), if hc then 1 else 0);
    (hi, lo, fc)
  }

  /** The two digit steps of `oper_sbc_d`, `b` already complemented. */
  function SubBcd(a: byte, b: byte, c: int): (r: (int, int, bool))
    requires 0 <= c <= 1
    ensures 0 <= r.0 < 16 && 0 <= r.1 < 16
    ensures IsBcd(a) && IsBcd(Not(b)) ==>
      r.0 < 10 && r.1 < 10 && r.0 * 10 + r.1 - (if r.2 then 0 else 100) == BcdValue(a) - BcdValue(Not(b)) - (1 - c)
  {
    NotNibbles(b);
    var (lo, hc) := SubDigit(Lo(a), Lo(b), c);
    var (hi, fc) := SubDigit(Hi(a), Hi(b), if hc then 1 else 0);
    (hi, lo, fc)
  }

  /** The BCD byte of two digits of a sum stands for that sum modulo 100,
      and the digit carry says whether the sum reached 100. */
  lemma AddDigitsValue(hi: int, lo: int, fc: bool, total: int)
    requires 0 <= hi < 16 && 0 <= lo < 16
    ensures hi < 10 && lo < 10 && hi * 10 + lo + (if fc then 100 else 0) == total ==>
      IsBcd(Join(hi, lo)) && BcdValue(Join(hi, lo)) == total % 100 && (fc <==> total >= 100)
  {
    var x := hi * 10 + lo;
    if hi < 10 && lo < 10 && x + (if fc then 100 else 0) == total {
      assert 0 <= x < 100;
      if fc {
        assert total % 100 == x by { assert total == x + 100; }
      }
    }
  }

  /** The same for a difference: the digits stand for it modulo 100, and
      the digit carry (no borrow) says whether it stayed non-negative. */
  lemma SubDigitsValue(hi: int, lo: int, fc: bool, total: int)
    requires 0 <= hi < 16 && 0 <= lo < 16
    ensures hi < 10 && lo < 10 && hi * 10 + lo - (if fc then 0 else 100) == total ==>
      IsBcd(Join(hi, lo)) && BcdValue(Join(hi, lo)) == total % 100 && (fc <==> total >= 0)
  {
    var x := hi * 10 + lo;
    if hi < 10 && lo < 10 && x - (if fc then 0 else 100) == total {
      assert 0 <= x < 100;
      assert BcdValue(Join(hi, lo)) == x;
      BorrowedDigits(x, total);
    }
  }

  /** A difference, whether or not it borrowed 100, stands for its digits
      modulo 100. */
  lemma BorrowedDigits(x: int, total: int)
    requires 0 <= x < 100 && (total == x || total == x - 100)
    ensures total % 100 == x
  {
  }

  /** The flag writes that end both decimal operations: P gets the decimal
      carry, `p_adj` (a copy of P) gets N, Z and C of the decimal result. */
  function DecimalFlags(p: bv8, q: byte, fc: bool): (r: (bv8, bv8))
    ensures Has(r.0, FlagC) == fc && Outside(r.0, p, FlagC)
    ensures Has(r.1, FlagC) == fc && ShowsNz(r.1, q) && Outside(r.1, p, FlagN | FlagZ | FlagC)
  {
    (SetP(p, FlagC, fc), SetP(MarkNz(p, q), FlagC, fc))
  }

  /** `oper_adc_d`: the BCD addition. It returns the digits, the new P (C
      replaced by the decimal carry) and the new `p_adj` (P with N, Z and C
      from the decimal result; V stays as the binary addition left it). */
  function AdcD(p: bv8, a: byte, b: byte, c: int): (r: (byte, bv8, bv8))
    requires 0 <= c <= 1
    ensures IsBcd(a) && IsBcd(b) ==>
      IsBcd(r.0) && BcdValue(r.0) == (BcdValue(a) + BcdValue(b) + c) % 100
      && (Has(r.1, FlagC) <==> BcdValue(a) + BcdValue(b) + c >= 100)
    ensures Has(r.2, FlagC) == Has(r.1, FlagC) && ShowsNz(r.2, r.0)
    ensures Outside(r.1, p, FlagC) && Outside(r.2, p, FlagN | FlagZ | FlagC)
  {
    var (hi, lo, fc) := AddBcd(a, b, c);
    var q := Join(hi, lo);
    AddDigitsValue(hi, lo, fc, BcdValue(a) + BcdValue(b) + c);
    var (np, adj) := DecimalFlags(p, q, fc);
    (q, np, adj)
  }

  /** `oper_sbc_d`: the BCD subtraction, called with `b` already
      complemented; C means "no borrow". Flags as in `AdcD`. */
  function SbcD(p: bv8, a: byte, b: byte, c: int): (r: (byte, bv8, bv8))
    requires 0 <= c <= 1
    ensures IsBcd(a) && IsBcd(Not(b)) ==>
      IsBcd(r.0) && BcdValue(r.0) == (BcdValue(a) - BcdValue(Not(b)) - (1 - c)) % 100
      && (Has(r.1, FlagC) <==> BcdValue(a) - BcdValue(Not(b)) - (1 - c) >= 0)
    ensures Has(r.2, FlagC) == Has(r.1, FlagC) && ShowsNz(r.2, r.0)
    ensures Outside(r.1, p, FlagC) && Outside(r.2, p, FlagN | FlagZ | FlagC)
  {
    var (hi, lo, fc) := SubBcd(a, b, c);
    var q := Join(hi, lo);
    SubDigitsValue(hi, lo, fc, BcdValue(a) - BcdValue(Not(b)) - (1 - c));
    var (np, adj) := DecimalFlags(p, q, fc);
    (q, np, adj)
  }

  /** Complementing a byte complements each nibble. */
  lemma NotNibbles(b: byte)
    ensures Lo(Not(b)) == 15 - Lo(b) && Hi(Not(b)) == 15 - Hi(b)
  {
  }

  /** The binary steps `oper_adc` and `oper_sbc` share: V from `oper_adc_v`,
      then N, Z and C from the nine-bit sum. */
  function AddBinary(p: bv8, a: byte, b: byte, c: int): (r: (byte, bv8))
    requires 0 <= c <= 1
    ensures r.0 == (a + b + c) % 256 && (Has(r.1, FlagC) <==> a + b + c >= 256)
    ensures Has(r.1, FlagV) <==> !(-128 <= Signed(a) + Signed(b) + c <= 127)
    ensures ShowsNz(r.1, r.0) && Outside(r.1, p, FlagN | FlagV | FlagZ | FlagC)
  {
    var p1 := SetP(p, FlagV, AdcV(a, b, c) != 0);
    MarkNzc8(p1, a + b + c)
  }

  /** Adding the complement of `b` and the carry is subtracting `b` and the
      borrow, as numbers modulo 256 and as signed numbers. */
  lemma SubtractByAdding(a: byte, b: byte, c: int)
    requires 0 <= c <= 1
    ensures (a + Not(b) + c) % 256 == (a - b - (1 - c)) % 256
    ensures a + Not(b) + c >= 256 <==> a - b - (1 - c) >= 0
    ensures Signed(Not(b)) == -Signed(b) - 1
  {
  }

  /** `oper_adc`: V from the binary sum, N, Z and C from the binary sum, and
      in decimal mode the BCD correction on top. Returns the value, P and
      `p_adj`; only N, V, Z and C of P can change. */
  function Adc(p: bv8, pAdj: bv8, a: byte, b: byte): (r: (byte, bv8, bv8))
    ensures Outside(r.1, p, FlagN | FlagV | FlagZ | FlagC)
  {
    var c := Carry(p);
    var (v, p2) := AddBinary(p, a, b, c);
    if !Has(p2, FlagD) then (v, p2, pAdj) else AdcD(p2, a, b, c)
  }

  /** `oper_sbc`: the same steps on the complement of `b`. */
  function Sbc(p: bv8, pAdj: bv8, a: byte, b: byte): (r: (byte, bv8, bv8))
    ensures Outside(r.1, p, FlagN | FlagV | FlagZ | FlagC)
  {
    var c := Carry(p);
    var nb := Not(b);
    var (v, p2) := AddBinary(p, a, nb, c);
    if !Has(p2, FlagD) then (v, p2, pAdj) else SbcD(p2, a, nb, c)
  }

  /** AddBinary leaves D alone, so ADC takes its decimal path exactly when
      D was set on entry. */
  lemma AdcSteps(p: bv8, pAdj: bv8, a: byte, b: byte)
    ensures var c := Carry(p); var s := AddBinary(p, a, b, c);
      Adc(p, pAdj, a, b) == if Has(p, FlagD) then AdcD(s.1, a, b, c) else (s.0, s.1, pAdj)
  {
    var s := AddBinary(p, a, b, Carry(p));
    KeepsFlag(s.1, p, FlagN | FlagV | FlagZ | FlagC, FlagD);
  }

  /** The same for SBC, which adds the complement of `b`. */
  lemma SbcSteps(p: bv8, pAdj: bv8, a: byte, b: byte)
    ensures var c := Carry(p); var s := AddBinary(p, a, Not(b), c);
      Sbc(p, pAdj, a, b) == if Has(p, FlagD) then SbcD(s.1, a, Not(b), c) else (s.0, s.1, pAdj)
  {
    var s := AddBinary(p, a, Not(b), Carry(p));
    KeepsFlag(s.1, p, FlagN | FlagV | FlagZ | FlagC, FlagD);
  }

  /** Binary ADC: A + B + C modulo 256, C is the carry out of bit 7;
      `p_adj` is not touched. */
  lemma AdcBinary(p: bv8, pAdj: bv8, a: byte, b: byte)
    requires !Has(p, FlagD)
    ensures var r := Adc(p, pAdj, a, b);
      r.0 == (a + b + Carry(p)) % 256 && (Has(r.1, FlagC) <==> a + b + Carry(p) >= 256)
      && ShowsNz(r.1, r.0) && r.2 == pAdj
  {
    AdcSteps(p, pAdj, a, b);
  }

  /** Binary SBC: A - B - (1 - C) modulo 256, C means no borrow; `p_adj` is
      not touched. */
  lemma SbcBinary(p: bv8, pAdj: bv8, a: byte, b: byte)
    requires !Has(p, FlagD)
    ensures var r := Sbc(p, pAdj, a, b);
      r.0 == (a - b - (1 - Carry(p))) % 256 && (Has(r.1, FlagC) <==> a - b - (1 - Carry(p)) >= 0)
      && ShowsNz(r.1, r.0) && r.2 == pAdj
  {
    SubtractByAdding(a, b, Carry(p));
    SbcSteps(p, pAdj, a, b);
  }

  /** ADC sets V on signed overflow in both modes: the decimal
      correction does not touch it. */
  lemma AdcOverflow(p: bv8, pAdj: bv8, a: byte, b: byte)
    ensures Has(Adc(p, pAdj, a, b).1, FlagV) <==> !(-128 <= Signed(a) + Signed(b) + Carry(p) <= 127)
  {
    var s := AddBinary(p, a, b, Carry(p));
    AdcSteps(p, pAdj, a, b);
    if Has(p, FlagD) {
      KeepsFlag(AdcD(s.1, a, b, Carry(p)).1, s.1, FlagC, FlagV);
    }
  }

  /** Decimal ADC, P: N and Z are those of the binary result. */
  lemma AdcDecimalNz(p: bv8, pAdj: bv8, a: byte, b: byte)
    requires Has(p, FlagD)
    ensures ShowsNz(Adc(p, pAdj, a, b).1, (a + b + Carry(p)) % 256)
  {
    AdcDecimalShowsBinary(p, pAdj, a, b);
  }

  /** Decimal ADC leaves in P the N and Z of the binary sum. */
  lemma AdcDecimalShowsBinary(p: bv8, pAdj: bv8, a: byte, b: byte)
    requires Has(p, FlagD)
    ensures ShowsNz(Adc(p, pAdj, a, b).1, AddBinary(p, a, b, Carry(p)).0)
  {
    var s := AddBinary(p, a, b, Carry(p));
    AdcDecimalCarry(p, pAdj, a, b);
    NzOutside(Adc(p, pAdj, a, b).1, s.1, FlagC, s.0);
  }

  /** After the binary steps, decimal ADC writes only C of P. */
  lemma AdcDecimalCarry(p: bv8, pAdj: bv8, a: byte, b: byte)
    requires Has(p, FlagD)
    ensures Outside(Adc(p, pAdj, a, b).1, AddBinary(p, a, b, Carry(p)).1, FlagC)
  {
    AdcSteps(p, pAdj, a, b);
  }

  /** Decimal ADC, `p_adj`: N and Z of the decimal result and the
      same C as P. */
  lemma AdcDecimalAdj(p: bv8, pAdj: bv8, a: byte, b: byte)
    requires Has(p, FlagD)
    ensures var r := Adc(p, pAdj, a, b);
      ShowsNz(r.2, r.0) && Has(r.2, FlagC) == Has(r.1, FlagC)
  {
    AdcSteps(p, pAdj, a, b);
  }

  /** Decimal ADC on BCD operands: the BCD of (A + B + C) mod 100, C set when
      the decimal sum reaches 100. */
  lemma AdcDecimal(p: bv8, pAdj: bv8, a: byte, b: byte)
    requires Has(p, FlagD) && IsBcd(a) && IsBcd(b)
    ensures var r := Adc(p, pAdj, a, b);
      IsBcd(r.0) && BcdValue(r.0) == (BcdValue(a) + BcdValue(b) + Carry(p)) % 100
      && (Has(r.1, FlagC) <==> BcdValue(a) + BcdValue(b) + Carry(p) >= 100)
  {
    AdcSteps(p, pAdj, a, b);
  }

  /** SBC sets V on signed overflow in both modes: the decimal
      correction does not touch it. */
  lemma SbcOverflow(p: bv8, pAdj: bv8, a: byte, b: byte)
    ensures Has(Sbc(p, pAdj, a, b).1, FlagV) <==> !(-128 <= Signed(a) - Signed(b) - (1 - Carry(p)) <= 127)
  {
    SubtractByAdding(a, b, Carry(p));
    var s := AddBinary(p, a, Not(b), Carry(p));
    SbcSteps(p, pAdj, a, b);
    if Has(p, FlagD) {
      KeepsFlag(SbcD(s.1, a, Not(b), Carry(p)).1, s.1, FlagC, FlagV);
    }
  }

  /** Decimal SBC, P: N and Z are those of the binary result. */
  lemma SbcDecimalNz(p: bv8, pAdj: bv8, a: byte, b: byte)
    requires Has(p, FlagD)
    ensures ShowsNz(Sbc(p, pAdj, a, b).1, (a - b - (1 - Carry(p))) % 256)
  {
    SubtractByAdding(a, b, Carry(p));
    var s := AddBinary(p, a, Not(b), Carry(p));
    SbcSteps(p, pAdj, a, b);
    NzOutside(SbcD(s.1, a, Not(b), Carry(p)).1, s.1, FlagC, s.0);
  }

  /** Decimal SBC, `p_adj`: N and Z of the decimal result and the
      same C as P. */
  lemma SbcDecimalAdj(p: bv8, pAdj: bv8, a: byte, b: byte)
    requires Has(p, FlagD)
    ensures var r := Sbc(p, pAdj, a, b);
      ShowsNz(r.2, r.0) && Has(r.2, FlagC) == Has(r.1, FlagC)
  {
    SbcSteps(p, pAdj, a, b);
  }

  /** Decimal SBC on BCD operands: the BCD of (A - B - (1 - C)) mod 100, C
      set when there is no borrow. */
  lemma SbcDecimal(p: bv8, pAdj: bv8, a: byte, b: byte)
    requires Has(p, FlagD) && IsBcd(a) && IsBcd(b)
    ensures var r := Sbc(p, pAdj, a, b);
      IsBcd(r.0) && BcdValue(r.0) == (BcdValue(a) - BcdValue(b) - (1 - Carry(p))) % 100
      && (Has(r.1, FlagC) <==> BcdValue(a) - BcdValue(b) - (1 - Carry(p)) >= 0)
  {
    SbcSteps(p, pAdj, a, b);
    assert Not(Not(b)) == b;
  }

  /** In binary mode SBC is ADC of the complement, and in both modes its V
      flag is the one ADC of the complement sets. */
  lemma SbcIsAdcOfNot(p: bv8, pAdj: bv8, a: byte, b: byte)
    ensures !Has(p, FlagD) ==> Sbc(p, pAdj, a, b) == Adc(p, pAdj, a, Not(b))
    ensures Has(Sbc(p, pAdj, a, b).1, FlagV) == Has(Adc(p, pAdj, a, Not(b)).1, FlagV)
  {
    var (v, p2) := AddBinary(p, a, Not(b), Carry(p));
  }

  // ---------------------------------------------------------------------
  // Compare and bit tests (include/w65c02s.h:1053-1074)

  /** `oper_cmp`: the flags of `a - b`; no register changes. */
  function Cmp(p: bv8, a: byte, b: byte): (r: bv8)
    ensures Has(r, FlagC) <==> a >= b
    ensures Has(r, FlagZ) <==> a == b
    ensures Has(r, FlagN) <==> (a - b) % 256 >= 0x80
    ensures Outside(r, p, FlagN | FlagZ | FlagC)
  {
    MarkNzc8(p, a + Not(b) + 1).1
  }

  /** `oper_bit`: N and V are bits 7 and 6 of the operand, Z tells whether
      `a & b` is zero. */
  function Bit(p: bv8, a: byte, b: byte): (r: bv8)
    ensures Has(r, FlagN) <==> (b as bv8) & 0x80 != 0
    ensures Has(r, FlagV) <==> (b as bv8) & 0x40 != 0
    ensures Has(r, FlagZ) <==> (a as bv8) & (b as bv8) == 0
    ensures Outside(r, p, FlagN | FlagV | FlagZ)
  {
    var p1 := SetP(p, FlagN, (b / 128) % 2 == 1);
    var p2 := SetP(p1, FlagV, (b / 64) % 2 == 1);
    SetP(p2, FlagZ, (a as bv8) & (b as bv8) == 0)
  }

  /** `oper_bit_imm`: only Z. */
  function BitImm(p: bv8, a: byte, b: byte): (r: bv8)
    ensures Has(r, FlagZ) <==> (a as bv8) & (b as bv8) == 0
    ensures Outside(r, p, FlagZ)
  {
    SetP(p, FlagZ, (a as bv8) & (b as bv8) == 0)
  }

  /** `v | m` or `v & ~m`: the bits of `m` switched on or off, the others
      left alone. */
  function SetBits(v: bv8, m: bv8, on: bool): (r: bv8)
    ensures r & m == (if on then m else 0)
    ensures r & !m == v & !m
  {
    if on then v | m else v & !m
  }

  /** `oper_tsb` (TSB when `setBits`, TRB otherwise): the bits of `a` are set
      in, or cleared from, `b`; every other bit of `b` stays. Z tests
      `a & b`. */
  function Tsb(p: bv8, a: byte, b: byte, setBits: bool): (r: (byte, bv8))
    ensures r.0 as bv8 == SetBits(b as bv8, a as bv8, setBits)
    ensures Has(r.1, FlagZ) <==> (a as bv8) & (b as bv8) == 0
    ensures Outside(r.1, p, FlagZ)
  {
    var w := SetBits(b as bv8, a as bv8, setBits);
    RoundTrip(w);
    (w as int, SetP(p, FlagZ, (a as bv8) & (b as bv8) == 0))
  }

  // ---------------------------------------------------------------------
  // Dispatch on the operation (include/w65c02s.h:1076-1101)

  // `cpu->oper` values of the read-modify-write group (include/w65c02s.h:863-872)
  const OperDec := 1
  const OperInc := 2
  const OperAsl := 3
  const OperRol := 4
  const OperLsr := 5
  const OperRor := 6

  // `cpu->oper` values of the read/store group (include/w65c02s.h:844-861)
  const OperAnd := 1
  const OperEor := 2
  const OperOra := 3
  const OperAdc := 4
  const OperSbc := 5
  const OperCmp := 6
  const OperCpx := 7
  const OperCpy := 8
  const OperBit := 9
  const OperLda := 10
  const OperLdx := 11
  const OperLdy := 12
  const OperSta := 13
  const OperStx := 14
  const OperSty := 15
  const OperStz := 16

  /** `oper_rmw`. The operations touch only N, Z and C, and INC and DEC not
      even C; an unknown operation (unreachable) leaves everything as it was. */
  function Rmw(p: bv8, op: nat, v: byte): (r: (byte, bv8))
    ensures Outside(r.1, p, FlagN | FlagZ | FlagC)
    ensures (op == OperInc || op == OperDec) ==> Outside(r.1, p, FlagN | FlagZ)
    ensures OperDec <= op <= OperRor ==> ShowsNz(r.1, r.0)
    ensures !(OperDec <= op <= OperRor) ==> r == (v, p)
  {
    if op == OperAsl then Asl(p, v)
    else if op == OperDec then Dec(p, v)
    else if op == OperInc then Inc(p, v)
    else if op == OperLsr then Lsr(p, v)
    else if op == OperRol then Rol(p, v)
    else if op == OperRor then Ror(p, v)
    else (v, p)
  }

  /** The result of AND, EOR or ORA, and its N and Z. */
  function Logical(p: bv8, pAdj: bv8, w: bv8): (r: (byte, bv8, bv8))
    ensures r.0 as bv8 == w && r.2 == pAdj
    ensures ShowsNz(r.1, r.0) && Outside(r.1, p, FlagN | FlagZ)
  {
    RoundTrip(w);
    (w as int, MarkNz(p, w as int), pAdj)
  }

  /** The bits AND, EOR and ORA produce from `a` and `b`. */
  function LogicBits(op: nat, a: byte, b: byte): (r: bv8)
    requires OperAnd <= op <= OperOra
    ensures op == OperAnd ==> r == (a as bv8) & (b as bv8)
    ensures op == OperEor ==> r == (a as bv8) ^ (b as bv8)
    ensures op == OperOra ==> r == (a as bv8) | (b as bv8)
  {
    if op == OperAnd then (a as bv8) & (b as bv8)
    else if op == OperEor then (a as bv8) ^ (b as bv8)
    else (a as bv8) | (b as bv8)
  }

  /** The operations of `oper_alu` other than ADC and SBC: a logical
      operation yields `LogicBits`, an unknown one (unreachable) yields `b`.
      All of them set N and Z from the result and leave `p_adj` alone. */
  function Logic(p: bv8, pAdj: bv8, op: nat, a: byte, b: byte): (r: (byte, bv8, bv8))
    ensures OperAnd <= op <= OperOra ==> r.0 as bv8 == LogicBits(op, a, b)
    ensures !(OperAnd <= op <= OperOra) ==> r.0 == b
    ensures r.2 == pAdj && ShowsNz(r.1, r.0) && Outside(r.1, p, FlagN | FlagZ)
  {
    if OperAnd <= op <= OperOra then Logical(p, pAdj, LogicBits(op, a, b))
    else (b, MarkNz(p, b), pAdj)
  }

  /** `oper_alu`: ADC and SBC, or one of the operations of `Logic`. In every
      case only N, V, Z and C of P can change. */
  function AluOp(p: bv8, pAdj: bv8, op: nat, a: byte, b: byte): (r: (byte, bv8, bv8))
    ensures Outside(r.1, p, FlagN | FlagV | FlagZ | FlagC)
  {
    if op == OperAdc then Adc(p, pAdj, a, b)
    else if op == OperSbc then Sbc(p, pAdj, a, b)
    else Logic(p, pAdj, op, a, b)
  }

  // ---------------------------------------------------------------------
  // Branches and bit instructions (include/w65c02s.h:1103-1128)

  // `cpu->oper` values of the branch group (include/w65c02s.h:888-897)
  const OperBpl := 0
  const OperBmi := 1
  const OperBvc := 2
  const OperBvs := 3
  const OperBcc := 4
  const OperBcs := 5
  const OperBne := 6
  const OperBeq := 7
  const OperBra := 8

  /** The flag a conditional branch tests: the pairs BPL/BMI, BVC/BVS,
      BCC/BCS and BNE/BEQ test N, V, C and Z. */
  function BranchFlag(op: nat): bv8
  {
    if op / 2 == 0 then FlagN else if op / 2 == 1 then FlagV
    else if op / 2 == 2 then FlagC else FlagZ
  }

  /** `oper_branch`: whether the branch is taken. */
  function Branch(op: nat, p: bv8): (r: bool)
    ensures op < OperBra ==> (r <==> Has(p, BranchFlag(op)) == (op % 2 == 1))
    ensures op == OperBra ==> r
    ensures op > OperBra ==> !r
  {
    if op == OperBpl then !Has(p, FlagN)
    else if op == OperBmi then Has(p, FlagN)
    else if op == OperBvc then !Has(p, FlagV)
    else if op == OperBvs then Has(p, FlagV)
    else if op == OperBcc then !Has(p, FlagC)
    else if op == OperBcs then Has(p, FlagC)
    else if op == OperBne then !Has(p, FlagZ)
    else if op == OperBeq then Has(p, FlagZ)
    else op == OperBra
  }

  /** `1 << (oper & 7)` */
  function Mask(oper: nat): (m: bv8)
  {
    (1 as bv8) << (oper % 8)
  }

  /** `oper_bitset` (RMB/SMB): bit `oper & 7` becomes `oper & 8`; every other
      bit stays. */
  function BitSet(oper: nat, v: byte): (r: byte)
    ensures r as bv8 == SetBits(v as bv8, Mask(oper), oper / 8 % 2 == 1)
  {
    var w := SetBits(v as bv8, Mask(oper), oper / 8 % 2 == 1);
    RoundTrip(w);
    w as int
  }

  /** `oper_bitbranch` (BBR/BBS): taken when bit `oper & 7` equals `oper & 8`. */
  function BitBranch(oper: nat, v: byte): (r: bool)
  {
    if oper / 8 % 2 == 1 then (v as bv8) & Mask(oper) != 0
    else (v as bv8) & Mask(oper) == 0
  }

  /** A BBR/BBS right after the RMB/SMB with the same operation number is
      always taken, and the branch tests nothing but that one bit. */
  lemma BitBranchAfterSet(oper: nat, v: byte, w: byte)
    ensures BitBranch(oper, BitSet(oper, v))
    ensures (v as bv8) & Mask(oper) == (w as bv8) & Mask(oper) ==> BitBranch(oper, v) == BitBranch(oper, w)
  {
  }

  /** `oper_is_store`: STA, STX, STY and STZ pay the store penalty. */
  function OperIsStore(oper: nat): (r: bool)
    ensures r <==> OperSta <= oper <= OperStz
  {
    oper == OperSta || oper == OperStx || oper == OperSty || oper == OperStz
  }

  // ---------------------------------------------------------------------
  // Addresses (include/w65c02s.h:770-771, 1194-1205)

  /** `STACK_ADDR(x)`: page one, offset `x`. */
  function StackAddr(x: byte): (r: word)
    ensures 0x100 <= r <= 0x1FF && r % 256 == x
  {
    0x100 + x
  }

  /** The target `compute_branch` works out: the offset byte is sign-extended
      and added to PC, wrapping around the 64K address space. */
  function BranchTarget(pc: word, offset: byte): (r: word)
    ensures r == (pc + Signed(offset)) % 0x1_0000
  {
    (pc + offset - (if offset >= 0x80 then 0x100 else 0)) % 0x1_0000
  }
}
