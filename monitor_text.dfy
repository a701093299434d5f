/**
 * Character-level parsing and formatting of the monitor (test/monitor.c):
 * the digit decoders, `prune`, `readbyte`, the hexadecimal address parse
 * behind `readaddress`, and the `%02X` / `%04X` formatting the
 * disassembler prints with.
 *
 * A line is a `string` read through a cursor `i`; past its end a NUL is
 * read, as at the terminator of the C string.
 */
module MonitorText {
  datatype Option<T> = None | Some(value: T)

  /** 16-bit values: addresses and `uint16_t` operands. */
  type word = x: int | 0 <= x < 0x1_0000

  /** 8-bit values: `uint8_t`. */
  type byte = x: int | 0 <= x < 0x100

  /** The monitor's 64 KiB memory. */
  type Ram = m: seq<byte> | |m| == 0x1_0000 witness seq(0x1_0000, _ => 0 as byte)

  /** A `uint16_t` pointer after `++`. */
  function Next(p: word): word {
    (p + 1) % 0x1_0000
  }

  /** The address `n` bytes on from `p`, wrapping at 64 KiB. */
  function Offset(p: word, n: nat): word {
    (p + n) % 0x1_0000
  }

  /** No step on is where one starts. */
  lemma OffsetZero(p: word)
    ensures Offset(p, 0) == p
  {
  }

  /** One step on from `n` bytes on is `n + 1` bytes on. */
  lemma NextOffset(p: word, n: nat)
    ensures Next(Offset(p, n)) == Offset(p, n + 1)
  {
    var q := (p + n) / 0x1_0000;
    assert p + n == q * 0x1_0000 + Offset(p, n);
    if Offset(p, n) + 1 < 0x1_0000 {
      assert p + n + 1 == q * 0x1_0000 + (Offset(p, n) + 1);
    } else {
      assert p + n + 1 == (q + 1) * 0x1_0000;
    }
  }

  /** The character under the cursor, NUL at and past the end. */
  function At(s: string, i: nat): char {
    if i < |s| then s[i] else '\0'
  }

  /** `isspace` in the C locale: space, and tab through carriage return. */
  predicate IsSpace(c: char) {
    c == ' ' || '\t' <= c <= '\r'
  }

  /** `toupper` in the C locale. */
  function ToUpper(c: char): (u: char)
    ensures 'a' <= c <= 'z' ==> 'A' <= u <= 'Z' && u as int == c as int - 32
    ensures !('a' <= c <= 'z') ==> u == c
  {
    if 'a' <= c <= 'z' then (c as int - 32) as char else c
  }

  // ---------------------------------------------------------------------
  // `prune` (test/monitor.c:89-92)

  /** Where `prune` stops: at the first character from `i` on that is not
      white space. */
  function SkipSpace(s: string, i: nat): (j: nat)
    ensures i <= j && !IsSpace(At(s, j))
    decreases |s| - i
  {
    if i < |s| && IsSpace(s[i]) then SkipSpace(s, i + 1) else i
  }

  /** Everything `prune` skips is white space. */
  lemma {:induction false} SkipSpaceSkipsSpace(s: string, i: nat)
    ensures forall k | i <= k < SkipSpace(s, i) :: IsSpace(At(s, k))
    decreases |s| - i
  {
    if i < |s| && IsSpace(s[i]) {
      SkipSpaceSkipsSpace(s, i + 1);
    }
  }

  /** `prune`: skips white space. */
  method Prune(s: string, i: nat) returns (j: nat)
    ensures j == SkipSpace(s, i)
  {
    j := i;
    while At(s, j) != '\0' && IsSpace(At(s, j))
      invariant i <= j && SkipSpace(s, j) == SkipSpace(s, i)
      decreases |s| - j
    {
      j := j + 1;
    }
  }

  // ---------------------------------------------------------------------
  // Digits (test/monitor.c:94-128)

  /** `octtodec`: the value of an octal digit, -1 for anything else. */
  function OctToDec(c: char): int {
    match c
    case '0' => 0
    case '1' => 1
    case '2' => 2
    case '3' => 3
    case '4' => 4
    case '5' => 5
    case '6' => 6
    case '7' => 7
    case _ => -1
  }

  /** `hextodec`: the value of a hexadecimal digit in either case, -1 for
      anything else. */
  function HexToDec(c: char): int {
    match c
    case '0' => 0
    case '1' => 1
    case '2' => 2
    case '3' => 3
    case '4' => 4
    case '5' => 5
    case '6' => 6
    case '7' => 7
    case '8' => 8
    case '9' => 9
    case 'A' | 'a' => 10
    case 'B' | 'b' => 11
    case 'C' | 'c' => 12
    case 'D' | 'd' => 13
    case 'E' | 'e' => 14
    case 'F' | 'f' => 15
    case _ => -1
  }

  predicate IsHexDigit(c: char) {
    '0' <= c <= '9' || 'A' <= c <= 'F' || 'a' <= c <= 'f'
  }

  /** `octtodec` maps exactly '0'..'7' to their values and everything else
      to -1. */
  lemma OctToDecValue(c: char)
    ensures '0' <= c <= '7' ==> OctToDec(c) == c as int - '0' as int
    ensures !('0' <= c <= '7') ==> OctToDec(c) == -1
  {
  }

  /** `hextodec` maps exactly the hexadecimal digits to 0..15, upper and
      lower case alike, and everything else to -1. */
  lemma HexToDecValue(c: char)
    ensures IsHexDigit(c) <==> HexToDec(c) >= 0
    ensures '0' <= c <= '9' ==> HexToDec(c) == c as int - '0' as int
    ensures 'A' <= c <= 'F' ==> HexToDec(c) == c as int - 'A' as int + 10
    ensures 'a' <= c <= 'f' ==> HexToDec(c) == HexToDec(ToUpper(c))
    ensures -1 <= HexToDec(c) < 16
  {
  }

  // ---------------------------------------------------------------------
  // Formatting with `%X` (test/monitor.c:834-851)

  /** The upper-case hexadecimal digit `printf` writes for `n`. */
  function HexChar(n: int): (c: char)
    requires 0 <= n < 16
    ensures IsHexDigit(c) && HexToDec(c) == n
  {
    if n < 10 then ('0' as int + n) as char else ('A' as int + n - 10) as char
  }

  /** `%02X` */
  function Hex2(b: byte): (t: string)
    ensures |t| == 2
  {
    [HexChar(b / 16), HexChar(b % 16)]
  }

  /** `%04X` */
  function Hex4(w: word): (t: string)
    ensures |t| == 4
  {
    [HexChar(w / 0x1000), HexChar(w / 0x100 % 16), HexChar(w / 16 % 16), HexChar(w % 16)]
  }

  // ---------------------------------------------------------------------
  // `readbyte` (test/monitor.c:130-143)

  /** `readbyte`: two hexadecimal digits make a byte and move the cursor
      past them; on failure there is no value and the cursor stays. The
      byte is `(dh << 4) | dl`, whose two nibbles do not overlap. */
  function ReadByte(s: string, i: nat): Option<(byte, nat)> {
    var dh := HexToDec(At(s, i));
    if dh < 0 then None
    else
      var dl := HexToDec(At(s, i + 1));
      if dl < 0 then None
      else Some((dh * 16 + dl, i + 2))
  }

  /** `readbyte` succeeds exactly when the next two characters are
      hexadecimal digits; the byte is 16 times the first one plus the
      second, and the cursor moves by two. */
  lemma ReadByteSpec(s: string, i: nat)
    ensures ReadByte(s, i).Some? <==> IsHexDigit(At(s, i)) && IsHexDigit(At(s, i + 1))
    ensures ReadByte(s, i).Some? ==>
      ReadByte(s, i).value.0 == HexToDec(At(s, i)) * 16 + HexToDec(At(s, i + 1))
      && ReadByte(s, i).value.1 == i + 2
  {
    HexToDecValue(At(s, i));
    HexToDecValue(At(s, i + 1));
  }

  /** Reading back a byte the disassembler printed gives the byte. */
  lemma ReadByteOfHex2(b: byte, rest: string)
    ensures ReadByte(Hex2(b) + rest, 0) == Some((b, 2))
  {
    var t := Hex2(b) + rest;
    var dh, dl := b / 16, b % 16;
    assert At(t, 0) == HexChar(dh) && At(t, 1) == HexChar(dl);
    ReadByteOfDigits(t, 0, dh, dl);
  }

  /** Two printed digits read back as the byte they make. */
  lemma ReadByteOfDigits(s: string, i: nat, dh: int, dl: int)
    requires 0 <= dh < 16 && 0 <= dl < 16
    requires At(s, i) == HexChar(dh) && At(s, i + 1) == HexChar(dl)
    ensures ReadByte(s, i) == Some((dh * 16 + dl, i + 2))
  {
  }

  // ---------------------------------------------------------------------
  // The address parse of `readaddress` (test/monitor.c:145-158)

  /** Where a run of hexadecimal digits from `i` ends. */
  function HexEnd(s: string, i: nat): (j: nat)
    ensures i <= j && !IsHexDigit(At(s, j))
    ensures forall k | i <= k < j :: IsHexDigit(At(s, k))
    decreases |s| - i
  {
    if i < |s| && IsHexDigit(s[i]) then HexEnd(s, i + 1) else i
  }

  /** The digits `s[i..j]` as a number, modulo 65536: the low 16 bits that
      `result & 0xFFFF` keeps. */
  function HexValue(s: string, i: nat, j: nat): word
    requires i <= j
    decreases j - i
  {
    if j == i then 0
    else
      var d := HexToDec(At(s, j - 1));
      (HexValue(s, i, j - 1) * 16 + (if d < 0 then 0 else d)) % 0x1_0000
  }

  /** `readaddress`: white space, an optional `$`, then what `strtoul` reads
      in base 16: white space again, then hexadecimal digits. It succeeds
      when there is at least one digit, with the value's low 16 bits and the
      cursor after the digits. */
  function ReadAddress(s: string, i: nat): (r: Option<(word, nat)>)
    ensures r.Some? ==> r.value.1 > i
  {
    var j := SkipSpace(s, i);
    var k := SkipSpace(s, if At(s, j) == '$' then j + 1 else j);
    var e := HexEnd(s, k);
    if e == k then None else Some((HexValue(s, k, e), e))
  }

  /** `strtoul` skips white space after the `$`: after `$ 12` the digits
      read are `12`. */
  lemma ReadAddressAfterGap(s: string, i: nat, j: nat)
    requires i < j && At(s, i) == '$' && IsHexDigit(At(s, j))
    requires forall k | i < k < j :: IsSpace(At(s, k))
    ensures ReadAddress(s, i) == Some((HexValue(s, j, HexEnd(s, j)), HexEnd(s, j)))
  {
    SkipSpaceTo(s, i + 1, j);
  }

  /** `prune` stops at the first character that is not white space. */
  lemma {:induction false} SkipSpaceTo(s: string, i: nat, j: nat)
    requires i <= j && !IsSpace(At(s, j))
    requires forall k | i <= k < j :: IsSpace(At(s, k))
    ensures SkipSpace(s, i) == j
    decreases j - i
  {
    if i < j {
      SkipSpaceTo(s, i + 1, j);
    }
  }

  /** Reading back an address the disassembler printed as `$XXXX` gives
      the address, when no further digit follows. */
  lemma ReadAddressOfHex4(w: word, rest: string)
    requires !IsHexDigit(At(rest, 0))
    ensures ReadAddress("$" + Hex4(w) + rest, 0) == Some((w, 5))
  {
    var t := "$" + Hex4(w) + rest;
    DigitsOfWord(w);
    var d3, d2, d1, d0 := w / 0x1000, w / 0x100 % 16, w / 16 % 16, w % 16;
    assert At(t, 1) == HexChar(d3) && At(t, 2) == HexChar(d2);
    assert At(t, 3) == HexChar(d1) && At(t, 4) == HexChar(d0);
    ReadAddressOfDigits(t, d3, d2, d1, d0);
  }

  /** `$` and four printed digits read back as the number they make. */
  lemma ReadAddressOfDigits(t: string, d3: int, d2: int, d1: int, d0: int)
    requires 0 <= d3 < 16 && 0 <= d2 < 16 && 0 <= d1 < 16 && 0 <= d0 < 16
    requires At(t, 0) == '$' && !IsHexDigit(At(t, 5))
    requires At(t, 1) == HexChar(d3) && At(t, 2) == HexChar(d2)
    requires At(t, 3) == HexChar(d1) && At(t, 4) == HexChar(d0)
    ensures ReadAddress(t, 0) == Some(((((d3 * 16 + d2) * 16 + d1) * 16 + d0) as word, 5))
  {
    assert SkipSpace(t, 0) == 0 && SkipSpace(t, 1) == 1;
    HexEndAt(t, 1, 5);
    HexValueStep(t, 1, 1, 0, d3);
    HexValueStep(t, 1, 2, d3, d2);
    HexValueStep(t, 1, 3, d3 * 16 + d2, d1);
    HexValueStep(t, 1, 4, (d3 * 16 + d2) * 16 + d1, d0);
  }

  /** One more digit multiplies the value by 16 and adds the digit. */
  lemma HexValueStep(s: string, i: nat, j: nat, v: int, d: int)
    requires i <= j && HexValue(s, i, j) == v && 0 <= d < 16 && HexToDec(At(s, j)) == d
    requires v * 16 + d < 0x1_0000
    ensures HexValue(s, i, j + 1) == v * 16 + d
  {
  }

  /** A word is its four hexadecimal digits, most significant first. */
  lemma DigitsOfWord(w: word)
    ensures w / 0x1000 < 16
    ensures ((w / 0x1000 * 16 + w / 0x100 % 16) * 16 + w / 16 % 16) * 16 + w % 16 == w
  {
    var q := w / 16;
    assert q * 16 + w % 16 == w;
    assert q / 16 == w / 0x100 && q / 0x100 == w / 0x1000;
    assert (q / 16) / 16 * 16 + (q / 16) % 16 == q / 16;
    assert q / 16 * 16 + q % 16 == q;
  }

  /** A run of digits that stops at a non-digit ends there. */
  lemma HexEndAt(s: string, i: nat, j: nat)
    requires i <= j && !IsHexDigit(At(s, j))
    requires forall k | i <= k < j :: IsHexDigit(At(s, k))
    ensures HexEnd(s, i) == j
    decreases j - i
  {
    if i < j {
      HexEndAt(s, i + 1, j);
    }
  }
}
