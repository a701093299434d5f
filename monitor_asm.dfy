/**
 * The mini-assembler's state as the monitor keeps it (test/monitor.c:16,
 * 77, 205-816): the eight-byte `asm_instr` buffer with its count, the
 * 64 KiB `ram` and the `address_asm` cursor. Each `asm_*` encoder is a
 * method that pushes into the buffer and is proved to push exactly what
 * the matching function of MonitorEncode describes.
 */
module MonitorAsm {
  import opened MonitorText
  import opened MonitorEncode

  /** The `,X` / `,Y` test after an operand, as the encoders spell it out. */
  method ReadIndex(s: string, j: nat, x: bool, y: bool) returns (r: Index, k: nat)
    ensures (r, k) == Suffix(s, j, x, y)
  {
    r, k := Plain, j;
    if At(s, k) == ',' {
      k := k + 1;
      if x && ToUpper(At(s, k)) == 'X' {
        r, k := IndexX, k + 1;
      } else if y && ToUpper(At(s, k)) == 'Y' {
        r, k := IndexY, k + 1;
      }
    }
  }

  /** `bsearch` with `find_by_mnemonic` as the comparison: in a sorted
      table it finds the row with the mnemonic, if there is one. */
  method Lookup(t: seq<AsmOpcode>, code: string) returns (r: Option<nat>)
    requires |code| == 3 && Sorted(t)
    ensures r == Find(t, code, 0)
  {
    var lo, hi := 0, |t|;
    while lo < hi
      invariant 0 <= lo <= hi <= |t|
      invariant lo > 0 ==> t[lo - 1].Rank() < Key(code)
      invariant hi < |t| ==> Key(code) < t[hi].Rank()
      decreases hi - lo
    {
      var mid := (lo + hi) / 2;
      var c := StrCmp(code, t[mid].Id());
      RankIsKey(t[mid]);
      if c < 0 {
        hi := mid;
      } else if c > 0 {
        lo := mid + 1;
      } else {
        KeyIsLexicographic(code, t[mid].Id());
        FindUnique(t, code, mid);
        return Some(mid);
      }
    }
    FindBetween(t, code, lo);
    r := None;
  }

  /** The operand part of `asm_bbr`, which the source reads inline. */
  method ReadBbrOperands(s: string, j: nat) returns (r: Option<(word, word, nat)>)
    ensures r == BbrOperands(s, j)
  {
    var k := Prune(s, j);
    var ra := ReadAddress(s, k);
    if ra.None? {
      return None;
    }
    k := Prune(s, ra.value.1);
    if At(s, k) != ',' {
      return None;
    }
    k := Prune(s, k + 1);
    var rb := ReadAddress(s, k);
    if rb.None? {
      return None;
    }
    r := Some((ra.value.0, rb.value.0, rb.value.1));
  }

  /** The mnemonic loop of `doassemble`: up to three characters from `j`,
      upper-cased, stopping at the end of the line. */
  method ReadMnemonic(s: string, j: nat) returns (code: string)
    ensures |code| == Letters(s, j)
    ensures |code| == 3 ==> code == Mnemonic3(s, j)
  {
    code := [];
    var p := j;
    while |code| < 3 && At(s, p) != '\0'
      invariant |code| <= Letters(s, j) && p == j + |code|
      invariant code == Mnemonic3(s, j)[..|code|]
      decreases 3 - |code|
    {
      code := code + [ToUpper(At(s, p))];
      p := p + 1;
    }
  }

  class Assembler {
    /** `asm_instr` */
    const instr: array<byte>
    /** `asm_instr_n` */
    var n: nat
    /** `ram` */
    const mem: array<byte>
    /** `address_asm` */
    var address: word
    /** `asm_opcode_table` */
    const table: seq<AsmOpcode>

    ghost predicate Valid()
      reads this
    {
      instr.Length == InstrSize && mem.Length == 0x1_0000 && instr != mem && n <= InstrSize &&
      Sorted(table)
    }

    /** The bytes pushed so far. */
    function Contents(): seq<byte>
      reads this, instr
      requires Valid()
    {
      instr[..n]
    }

    /** The memory as a value. */
    function Memory(): Ram
      reads this, mem
      requires Valid()
    {
      mem[..]
    }

    /** The monitor's start-up state: zeroed memory, an empty buffer. */
    constructor (start: word)
      ensures Valid() && fresh(instr) && fresh(mem)
      ensures Contents() == [] && Memory() == seq(0x1_0000, _ => 0) && address == start
      ensures table == Table()
    {
      table := Table();
      TableSorted();
      instr := new byte[InstrSize](_ => 0);
      mem := new byte[0x1_0000](_ => 0);
      n := 0;
      address := start;
    }

    /** `asmpush`: a byte is appended while there is room, and dropped
        after that. */
    method Push(b: byte)
      requires Valid()
      modifies this, instr
      ensures Valid() && address == old(address)
      ensures Contents() == Capped(old(Contents()) + [b])
    {
      if n < InstrSize {
        instr[n] := b;
        n := n + 1;
      } else {
        assert (old(Contents()) + [b])[..InstrSize] == old(Contents());
      }
    }

    /** `asmpush16`: low byte, then high byte. */
    method Push16(a: word)
      requires Valid()
      modifies this, instr
      ensures Valid() && address == old(address)
      ensures Contents() == Capped(old(Contents()) + LittleEndian(a))
    {
      ghost var c := Contents();
      Push(Lo(a));
      Push(Hi(a));
      CappedAppend(c + [Lo(a)], [Hi(a)]);
      assert c + [Lo(a)] + [Hi(a)] == c + LittleEndian(a);
    }

    /** Two pushes in a row are one push of both. */
    static lemma PushPush(c: seq<byte>, u: seq<byte>, v: seq<byte>)
      ensures Capped(Capped(c + u) + v) == Capped(c + (u + v))
    {
      CappedAppend(c + u, v);
      assert c + u + v == c + (u + v);
    }

    /** The opcode and a zero-page byte, or the opcode and a word. */
    method PushSized(a: word, abs: byte, zp: byte)
      requires Valid()
      modifies this, instr
      ensures Valid() && address == old(address)
      ensures Contents() == Capped(old(Contents()) + Sized(a, abs, zp))
    {
      ghost var c := Contents();
      if a >= 0x100 {
        Push(abs);
        Push16(a);
        PushPush(c, [abs], LittleEndian(a));
      } else {
        Push(zp);
        Push(a);
        PushPush(c, [zp], [a]);
      }
    }

    /** An opcode and its byte operand. */
    method Push2(op: byte, a: byte)
      requires Valid()
      modifies this, instr
      ensures Valid() && address == old(address)
      ensures Contents() == Capped(old(Contents()) + [op, a])
    {
      ghost var c := Contents();
      Push(op);
      Push(a);
      PushPush(c, [op], [a]);
    }

    /** An opcode and its word operand. */
    method Push3(op: byte, a: word)
      requires Valid()
      modifies this, instr
      ensures Valid() && address == old(address)
      ensures Contents() == Capped(old(Contents()) + ([op] + LittleEndian(a)))
    {
      ghost var c := Contents();
      Push(op);
      Push16(a);
      PushPush(c, [op], LittleEndian(a));
    }

    /** The immediate form shared by five encoders. */
    method AsmImmediate(s: string, i: nat, op: byte) returns (r: int)
      requires Valid()
      modifies this, instr
      ensures Valid() && address == old(address)
      ensures Contents() == Capped(old(Contents()) + Immediate(s, i, op).bytes)
      ensures r == Immediate(s, i, op).result
    {
      var ra := ReadAddress(s, i + 1);
      if ra.None? || ra.value.0 >= 0x100 {
        assert old(Contents()) + [] == old(Contents());
        return -1;
      }
      Push2(op, ra.value.0);
      r := ra.value.1 - i;
    }

    /** The indirect forms shared by `asm_alu` and `asm_sta`. */
    method AsmIndirect(s: string, i: nat, opY: byte, opX: byte, opZp: byte) returns (r: int)
      requires Valid()
      modifies this, instr
      ensures Valid() && address == old(address)
      ensures Contents() == Capped(old(Contents()) + Indirect(s, i, opY, opX, opZp).bytes)
      ensures r == Indirect(s, i, opY, opX, opZp).result
    {
      assert old(Contents()) + [] == old(Contents());
      var ra := ReadAddress(s, i + 1);
      if ra.None? {
        return -1;
      }
      var a := ra.value.0;
      var j := Prune(s, ra.value.1);
      var x, k := ReadIndex(s, j, true, true);
      if a >= 0x100 {
        return -1;
      }
      var op := if x == IndexY then opY else if x == IndexX then opX else opZp;
      Push2(op, a);
      k := Prune(s, k);
      if At(s, k) != ')' {
        return -1;
      }
      r := k + 1 - i;
    }

    /** `asm_one` */
    method AsmOne(mask: byte) returns (r: int)
      requires Valid()
      modifies this, instr
      ensures Valid() && address == old(address)
      ensures Contents() == Capped(old(Contents()) + One(mask).bytes) && r == One(mask).result
    {
      Push(mask);
      r := 0;
    }

    /** `asm_alu` */
    method AsmAlu(s: string, i: nat, mask: byte) returns (r: int)
      requires Valid()
      modifies this, instr
      ensures Valid() && address == old(address)
      ensures Contents() == Capped(old(Contents()) + Alu(s, i, mask).bytes) && r == Alu(s, i, mask).result
    {
      if At(s, i) == '#' {
        r := AsmImmediate(s, i, Or(mask, 0x09));
        return;
      }
      if At(s, i) == '(' {
        r := AsmIndirect(s, i, Or(mask, 0x11), Or(mask, 0x01), Or(mask, 0x12));
        return;
      }
      var ra := ReadAddress(s, i);
      if ra.None? {
        assert old(Contents()) + [] == old(Contents());
        return -1;
      }
      var a := ra.value.0;
      var j := Prune(s, ra.value.1);
      var x, k := ReadIndex(s, j, true, true);
      if x == IndexY {
        Push3(Or(mask, 0x19), a);
      } else {
        PushSized(a, Or(Or(mask, 0x0D), XBit(x)), Or(Or(mask, 0x05), XBit(x)));
      }
      r := k - i;
    }

    /** `asm_rmw`, stepping past an `A` operand. */
    method AsmRmw(s: string, i: nat, mask: byte) returns (r: int)
      requires Valid()
      modifies this, instr
      ensures Valid() && address == old(address)
      ensures Contents() == Capped(old(Contents()) + Rmw(s, i, mask).bytes) && r == Rmw(s, i, mask).result
    {
      var j := Prune(s, i);
      if At(s, j) == '\0' || ToUpper(At(s, j)) == 'A' {
        Push(Or(mask, 0x0A));
        if At(s, j) != '\0' {
          j := j + 1;
        }
        return j - i;
      }
      var ra := ReadAddress(s, j);
      if ra.None? {
        assert old(Contents()) + [] == old(Contents());
        return -1;
      }
      var a := ra.value.0;
      var k := Prune(s, ra.value.1);
      var x;
      x, k := ReadIndex(s, k, true, false);
      PushSized(a, Or(Or(mask, 0x0E), XBit(x)), Or(Or(mask, 0x06), XBit(x)));
      r := k - i;
    }

    /** `asm_rmw_inc` (`acc` 0x1A) and `asm_rmw_dec` (`acc` 0x3A), stepping
        past an `A` operand. */
    method AsmRmwOwn(s: string, i: nat, mask: byte, acc: byte) returns (r: int)
      requires Valid()
      modifies this, instr
      ensures Valid() && address == old(address)
      ensures Contents() == Capped(old(Contents()) + RmwOwn(s, i, mask, acc).bytes)
      ensures r == RmwOwn(s, i, mask, acc).result
    {
      var j := Prune(s, i);
      if At(s, j) == '\0' || ToUpper(At(s, j)) == 'A' {
        Push(acc);
        if At(s, j) != '\0' {
          j := j + 1;
        }
        return j - i;
      }
      r := AsmRmw(s, j, mask);
    }

    /** `asm_rmb`, with the bit number in the high nibble. */
    method AsmRmb(s: string, i: nat, mask: byte) returns (r: int)
      requires Valid()
      modifies this, instr
      ensures Valid() && address == old(address)
      ensures Contents() == Capped(old(Contents()) + Rmb(s, i, mask).bytes) && r == Rmb(s, i, mask).result
    {
      assert old(Contents()) + [] == old(Contents());
      var d := OctToDec(At(s, i));
      if d < 0 {
        return -1;
      }
      var j := Prune(s, i + 1);
      var ra := ReadAddress(s, j);
      if ra.None? {
        return -1;
      }
      Push2(BitOpcode(mask, d), Lo(ra.value.0));
      r := ra.value.1 - i;
    }

    /** `asm_bbr`, with the bit number in the high nibble. */
    method AsmBbr(s: string, i: nat, mask: byte) returns (r: int)
      requires Valid()
      modifies this, instr
      ensures Valid() && address == old(address)
      ensures Contents() == Capped(old(Contents()) + Bbr(s, i, mask).bytes) && r == Bbr(s, i, mask).result
    {
      var d := OctToDec(At(s, i));
      if d < 0 {
        assert old(Contents()) + [] == old(Contents());
        return -1;
      }
      var ops := ReadBbrOperands(s, i + 1);
      if ops.None? {
        assert old(Contents()) + [] == old(Contents());
        return -1;
      }
      var op, a, b := BitOpcode(mask, d), Lo(ops.value.0), Lo(ops.value.1);
      ghost var c := Contents();
      Push2(op, a);
      Push(b);
      PushPush(c, [op, a], [b]);
      assert [op, a] + [b] == [op, a, b];
      r := ops.value.2 - i;
    }

    /** `asm_bra` */
    method AsmBra(s: string, i: nat, mask: byte) returns (r: int)
      requires Valid()
      modifies this, instr
      ensures Valid() && address == old(address)
      ensures Contents() == Capped(old(Contents()) + Bra(s, i, mask).bytes) && r == Bra(s, i, mask).result
    {
      var ra := ReadAddress(s, i);
      if ra.None? || ra.value.0 >= 0x100 {
        assert old(Contents()) + [] == old(Contents());
        return -1;
      }
      Push2(mask, ra.value.0);
      r := ra.value.1 - i;
    }

    /** `asm_bit` */
    method AsmBit(s: string, i: nat) returns (r: int)
      requires Valid()
      modifies this, instr
      ensures Valid() && address == old(address)
      ensures Contents() == Capped(old(Contents()) + Bit(s, i).bytes) && r == Bit(s, i).result
    {
      if At(s, i) == '#' {
        r := AsmImmediate(s, i, 0x89);
        return;
      }
      var ra := ReadAddress(s, i);
      if ra.None? {
        assert old(Contents()) + [] == old(Contents());
        return -1;
      }
      var k := Prune(s, ra.value.1);
      var x;
      x, k := ReadIndex(s, k, true, false);
      PushSized(ra.value.0, Or(0x2C, XBit(x)), Or(0x24, XBit(x)));
      r := k - i;
    }

    /** `asm_cpx`, with each row's own opcodes. */
    method AsmCpx(s: string, i: nat, mask: byte) returns (r: int)
      requires Valid()
      modifies this, instr
      ensures Valid() && address == old(address)
      ensures Contents() == Capped(old(Contents()) + Cpx(s, i, mask).bytes) && r == Cpx(s, i, mask).result
    {
      if At(s, i) == '#' {
        r := AsmImmediate(s, i, mask);
        return;
      }
      var ra := ReadAddress(s, i);
      if ra.None? {
        assert old(Contents()) + [] == old(Contents());
        return -1;
      }
      var k := Prune(s, ra.value.1);
      PushSized(ra.value.0, Or(mask, 0x0C), Or(mask, 0x04));
      r := k - i;
    }

    /** `asm_ldx` */
    method AsmLdx(s: string, i: nat) returns (r: int)
      requires Valid()
      modifies this, instr
      ensures Valid() && address == old(address)
      ensures Contents() == Capped(old(Contents()) + Ldx(s, i).bytes) && r == Ldx(s, i).result
    {
      if At(s, i) == '#' {
        r := AsmImmediate(s, i, 0xA2);
        return;
      }
      var ra := ReadAddress(s, i);
      if ra.None? {
        assert old(Contents()) + [] == old(Contents());
        return -1;
      }
      var k := Prune(s, ra.value.1);
      var y;
      y, k := ReadIndex(s, k, false, true);
      PushSized(ra.value.0, Or(0xAE, YBit(y)), Or(0xA6, YBit(y)));
      r := k - i;
    }

    /** `asm_ldy` */
    method AsmLdy(s: string, i: nat) returns (r: int)
      requires Valid()
      modifies this, instr
      ensures Valid() && address == old(address)
      ensures Contents() == Capped(old(Contents()) + Ldy(s, i).bytes) && r == Ldy(s, i).result
    {
      if At(s, i) == '#' {
        r := AsmImmediate(s, i, 0xA0);
        return;
      }
      var ra := ReadAddress(s, i);
      if ra.None? {
        assert old(Contents()) + [] == old(Contents());
        return -1;
      }
      var k := Prune(s, ra.value.1);
      var x;
      x, k := ReadIndex(s, k, true, false);
      PushSized(ra.value.0, Or(0xAC, XBit(x)), Or(0xA4, XBit(x)));
      r := k - i;
    }

    /** `asm_sta` */
    method AsmSta(s: string, i: nat) returns (r: int)
      requires Valid()
      modifies this, instr
      ensures Valid() && address == old(address)
      ensures Contents() == Capped(old(Contents()) + Sta(s, i).bytes) && r == Sta(s, i).result
    {
      if At(s, i) == '(' {
        r := AsmIndirect(s, i, 0x91, 0x81, 0x92);
        return;
      }
      var ra := ReadAddress(s, i);
      if ra.None? {
        assert old(Contents()) + [] == old(Contents());
        return -1;
      }
      var a := ra.value.0;
      var j := Prune(s, ra.value.1);
      var x, k := ReadIndex(s, j, true, true);
      if x == IndexY {
        Push3(0x99, a);
      } else {
        PushSized(a, Or(0x8D, XBit(x)), Or(0x85, XBit(x)));
      }
      r := k - i;
    }

    /** `asm_stx` */
    method AsmStx(s: string, i: nat) returns (r: int)
      requires Valid()
      modifies this, instr
      ensures Valid() && address == old(address)
      ensures Contents() == Capped(old(Contents()) + Stx(s, i).bytes) && r == Stx(s, i).result
    {
      assert old(Contents()) + [] == old(Contents());
      var ra := ReadAddress(s, i);
      if ra.None? {
        return -1;
      }
      var a := ra.value.0;
      var k := Prune(s, ra.value.1);
      var y;
      y, k := ReadIndex(s, k, false, true);
      if y == IndexY {
        if a >= 0x100 {
          return -1;
        }
        Push2(0x96, a);
      } else {
        PushSized(a, 0x8E, 0x86);
      }
      r := k - i;
    }

    /** `asm_sty` */
    method AsmSty(s: string, i: nat) returns (r: int)
      requires Valid()
      modifies this, instr
      ensures Valid() && address == old(address)
      ensures Contents() == Capped(old(Contents()) + Sty(s, i).bytes) && r == Sty(s, i).result
    {
      assert old(Contents()) + [] == old(Contents());
      var ra := ReadAddress(s, i);
      if ra.None? {
        return -1;
      }
      var a := ra.value.0;
      var k := Prune(s, ra.value.1);
      var x;
      x, k := ReadIndex(s, k, true, false);
      if x == IndexX {
        if a >= 0x100 {
          return -1;
        }
        Push2(0x94, a);
      } else {
        PushSized(a, 0x8C, 0x84);
      }
      r := k - i;
    }

    /** `asm_stz` */
    method AsmStz(s: string, i: nat) returns (r: int)
      requires Valid()
      modifies this, instr
      ensures Valid() && address == old(address)
      ensures Contents() == Capped(old(Contents()) + Stz(s, i).bytes) && r == Stz(s, i).result
    {
      var ra := ReadAddress(s, i);
      if ra.None? {
        assert old(Contents()) + [] == old(Contents());
        return -1;
      }
      var k := Prune(s, ra.value.1);
      var x;
      x, k := ReadIndex(s, k, true, false);
      PushSized(ra.value.0, Or(0x9C, if x == IndexX then 0x02 else 0x00), Or(0x64, XBit(x)));
      r := k - i;
    }

    /** `asm_tsb`, for TSB and TRB. */
    method AsmTsb(s: string, i: nat, mask: byte) returns (r: int)
      requires Valid()
      modifies this, instr
      ensures Valid() && address == old(address)
      ensures Contents() == Capped(old(Contents()) + Tsb(s, i, mask).bytes) && r == Tsb(s, i, mask).result
    {
      var ra := ReadAddress(s, i);
      if ra.None? {
        assert old(Contents()) + [] == old(Contents());
        return -1;
      }
      PushSized(ra.value.0, Or(mask, 0x0C), Or(mask, 0x04));
      r := ra.value.1 - i;
    }

    /** `asm_jmp` */
    method AsmJmp(s: string, i: nat) returns (r: int)
      requires Valid()
      modifies this, instr
      ensures Valid() && address == old(address)
      ensures Contents() == Capped(old(Contents()) + Jmp(s, i).bytes) && r == Jmp(s, i).result
    {
      if At(s, i) == '(' {
        var ra := ReadAddress(s, i + 1);
        if ra.None? {
          assert old(Contents()) + [] == old(Contents());
          return -1;
        }
        var k := Prune(s, ra.value.1);
        var x;
        x, k := ReadIndex(s, k, true, false);
        Push3(if x == IndexX then 0x7C else 0x6C, ra.value.0);
        if At(s, k) != ')' {
          return -1;
        }
        return k + 1 - i;
      }
      var ra := ReadAddress(s, i);
      if ra.None? {
        assert old(Contents()) + [] == old(Contents());
        return -1;
      }
      Push3(0x4C, ra.value.0);
      r := ra.value.1 - i;
    }

    /** `asm_jsr` */
    method AsmJsr(s: string, i: nat) returns (r: int)
      requires Valid()
      modifies this, instr
      ensures Valid() && address == old(address)
      ensures Contents() == Capped(old(Contents()) + Jsr(s, i).bytes) && r == Jsr(s, i).result
    {
      var ra := ReadAddress(s, i);
      if ra.None? {
        assert old(Contents()) + [] == old(Contents());
        return -1;
      }
      Push3(0x20, ra.value.0);
      r := ra.value.1 - i;
    }

    /** `asm_brk` */
    method AsmBrk(s: string, i: nat) returns (r: int)
      requires Valid()
      modifies this, instr
      ensures Valid() && address == old(address)
      ensures Contents() == Capped(old(Contents()) + Brk(s, i).bytes) && r == Brk(s, i).result
    {
      if At(s, i) == '#' {
        r := AsmImmediate(s, i, 0x00);
        return;
      }
      Push2(0x00, 0x00);
      r := 0;
    }

    /** The call through a row's `assemble` pointer. */
    method AsmRow(e: AsmOpcode, s: string, i: nat) returns (r: int)
      requires Valid()
      modifies this, instr
      ensures Valid() && address == old(address)
      ensures Contents() == Capped(old(Contents()) + Encode(e, s, i).bytes) && r == Encode(e, s, i).result
    {
      match e.mode
      case OneMode => r := AsmOne(e.mask);
      case AluMode => r := AsmAlu(s, i, e.mask);
      case RmwMode => r := AsmRmw(s, i, e.mask);
      case RmwIncMode => r := AsmRmwOwn(s, i, e.mask, 0x1A);
      case RmwDecMode => r := AsmRmwOwn(s, i, e.mask, 0x3A);
      case RmbMode => r := AsmRmb(s, i, e.mask);
      case BbrMode => r := AsmBbr(s, i, e.mask);
      case BraMode => r := AsmBra(s, i, e.mask);
      case BitMode => r := AsmBit(s, i);
      case CpxMode => r := AsmCpx(s, i, e.mask);
      case LdxMode => r := AsmLdx(s, i);
      case LdyMode => r := AsmLdy(s, i);
      case StaMode => r := AsmSta(s, i);
      case StxMode => r := AsmStx(s, i);
      case StyMode => r := AsmSty(s, i);
      case StzMode => r := AsmStz(s, i);
      case TsbMode => r := AsmTsb(s, i, e.mask);
      case JmpMode => r := AsmJmp(s, i);
      case JsrMode => r := AsmJsr(s, i);
      case BrkMode => r := AsmBrk(s, i);
    }

    /** The write loop of `doassemble`: the buffer goes to memory from
        `address_asm` on, which wraps around at the top of memory. */
    method Write()
      requires Valid()
      modifies this, mem
      ensures Valid() && n == old(n) && Contents() == old(Contents())
      ensures Memory() == Store(old(Memory()), old(address), old(Contents()))
      ensures address == Offset(old(address), n)
    {
      var i := 0;
      while i < n
        invariant 0 <= i <= n == old(n) && Valid()
        invariant Memory() == Store(old(Memory()), old(address), instr[..i])
        invariant address == Offset(old(address), i)
        decreases n - i
      {
        assert instr[..i + 1][..i] == instr[..i];
        mem[address] := instr[i];
        NextOffset(old(address), i);
        address := Next(address);
        i := i + 1;
      }
      assert instr[..n] == Contents();
    }

    /** The start of `doassemble`'s loop body: white space, the mnemonic
        and its lookup; the buffer is emptied unless the line is blank. */
    method ReadStatement(s: string) returns (st: Statement)
      requires Valid()
      modifies this
      ensures Valid() && address == old(address) && st == Recognize(table, s)
      ensures !st.Blank? ==> Contents() == []
    {
      var j := Prune(s, 0);
      if At(s, j) == '\0' {
        return Blank;
      }
      n := 0;
      var code := ReadMnemonic(s, j);
      if |code| != 3 {
        return Unknown;
      }
      var k := Prune(s, j + 3);
      var found := Lookup(table, code);
      if found.None? {
        return Unknown;
      }
      st := Instruction(found.value, k);
    }

    /** `doassemble`'s loop body up to the write loop: the buffer is
        emptied and filled by the encoder of the row the line names. */
    method EncodeLine(s: string) returns (res: LineResult)
      requires Valid()
      modifies this, instr
      ensures Valid() && address == old(address) && res == Assemble(table, s)
      ensures res.Assembled? ==> Contents() == res.bytes
    {
      var st := ReadStatement(s);
      match st
      case Blank => return EndOfInput;
      case Unknown => return LineError;
      case Instruction(row, k) =>
        var e := Corrected(table[row]);
        var r := AsmRow(e, s, k);
        res := Conclude(s, k, r, Encode(e, s, k));
    }

    /** The end of `doassemble`'s loop body: a negative result from the
        encoder, or anything but white space after what it read, rejects
        the line; otherwise the line is the bytes in the buffer. */
    method Conclude(s: string, k: nat, r: int, ghost enc: Encoding) returns (res: LineResult)
      requires Valid() && r == enc.result && Contents() == Capped([] + enc.bytes)
      ensures res == Accept(s, k, enc)
      ensures res.Assembled? ==> Contents() == res.bytes
    {
      if r < 0 {
        return LineError;
      }
      var t := Prune(s, k + r);
      if At(s, t) != '\0' {
        return LineError;
      }
      assert [] + enc.bytes == enc.bytes;
      res := Assembled(Contents());
    }

    /** One pass of `doassemble`'s loop: the line is assembled into the
        buffer and, when it is accepted, written to memory at `address_asm`,
        which moves past it; a rejected line leaves memory alone. */
    method AssembleLine(s: string) returns (res: LineResult)
      requires Valid()
      modifies this, instr, mem
      ensures Valid() && res == Assemble(table, s)
      ensures res.Assembled? ==> Contents() == res.bytes
      ensures res.Assembled? ==> Memory() == Store(old(Memory()), old(address), res.bytes)
      ensures res.Assembled? ==> address == Offset(old(address), |res.bytes|)
      ensures !res.Assembled? ==> Memory() == old(Memory()) && address == old(address)
    {
      res := EncodeLine(s);
      if res.Assembled? {
        Write();
      }
    }
  }
}
