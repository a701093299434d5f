# w65c02s.h core, modelled in Dafny

This project models four parts of the w65c02s.h repository (a cycle-accurate
emulator of the WDC 65C02S) and proves properties of them.

- **The API-doc generator** (docs/generate.py).
  - It finds each `/** … */` comment block and the declaration after it, up to
    its `;`.
  - It puts back-ticks around `W65C02SCE_…` identifiers.
  - It removes the comment frame and the ` * ` decoration, then reflows and
    normalises the text.
  - It splits the text into a name, a brief, description lines, parameters
    and a return value.
  - It renders a Markdown section, wrapped at 79 columns.
  - Modules: `DocMain` (the scan, the quoting and the driver loop), `DocGen`
    (`convert`), `TextWrap` (the parts of Python's `textwrap.wrap` the
    generator uses) and `PyStr` (`strip`, `split`, `splitlines`).
- **The single-header emulator's ALU and CPU state** (include/w65c02s.h).
  - Module `Alu`: the flag helpers and every `w65c02s_oper_*` operation.
    This covers binary and decimal ADC/SBC, CMP, BIT, TSB/TRB, the shifts,
    rotates, branches and bit instructions, the stack address and the branch
    target.
  - Module `Decode`: the two 256-entry decode tables and `w65c02s_decode`.
  - Module `Machine`:
    - the CPU-state word with its RUN/RESET/WAIT/STOP state and IRQ/NMI bits;
    - interrupt latching, masking and service;
    - the stack;
    - the read operations `oper_imm`/`oper_addr`;
    - the API entry points `nmi`, `reset`, `irq`, `irq_cancel`,
      `reg_get_p` and `reg_set_p`.
    Class `Machine.Cpu` holds the fields of `struct w65c02s_cpu` that these
    functions update in place.
- **The split build's ALU** (src/oper.c), module `OperSplit`.
  - This is an older variant of the same operations.
  - The model states where it differs from the header:
    - decimal C goes only to `p_adj`;
    - the branch numbering is different;
    - every unknown branch operation is taken.
  - Class `OperSplit.SplitCpu` mirrors its in-place updates of P and `p_adj`.
- **The monitor's parser, mini-assembler and disassembler** (test/monitor.c).
  - `MonitorText`: `prune`, `octtodec`, `hextodec`, `readbyte`,
    `readaddress`, and `%02X`/`%04X` formatting.
  - `MonitorEncode`: each `asm_*` encoder as a function, the opcode table and
    its ordering, and one line of `doassemble`.
  - `MonitorAsm`: class `Assembler`, with the 8-byte `asm_instr` buffer,
    `asmpush`/`asmpush16`, the encoders as methods that advance a cursor and
    push bytes, the `bsearch` lookup and the write loop.
  - `MonitorDisasm`: the disassembler table, operand lengths, and class
    `Disassembler` with its 64-byte `disasm_buf`.
  - `MonitorRoundTrip`: what the assembler emits, set against what the
    disassembler reads back.

Modelling conventions:

- Registers are integers in 0..255 (`byte`) or 0..65535 (`word`).
- P and `p_adj` are `bv8` flag masks.
- The CPU-state word, `int_trig` and `int_mask` are `bv32`.
- Memory is a 64 KiB sequence.
- C's 8-bit and 16-bit wrap-around is written out as `% 256` and `% 0x1_0000`.
- A Python `assert` or a failed tuple unpacking in the generator becomes an
  `Err` result. The run stops at the first such error.

Three facts of docs/generate.py shape the generator's model:

- The entry name and the brief are not stripped (docs/generate.py:17, 19).
  They are cut at the first and second newline of the normalised text,
  which has no leading space and no double space, but may end in a space.
- The normalised text needs two newlines (docs/generate.py:17-19). A brief
  with no line break after it makes the second `split` unpacking fail
  (`NoBrief`).
- A failed entry raises a Python exception that stops the whole run and
  does not give the entry's position (docs/generate.py:64-66). The model
  returns the output so far and the error.

## Model

| member | source | states |
|---|---|---|
| PyStr.LStripSpec | docs/generate.py:8 | `lstrip` removes exactly the leading run of Python white space: the result is a suffix, what was removed is all white space, and the result is empty or starts with a non-space |
| PyStr.RStripSpec | docs/generate.py:37 | `rstrip` removes exactly the trailing run of white space: the result is a prefix, the removed tail is white space, and the result is empty or ends with a non-space |
| PyStr.StripSlice | docs/generate.py:6 | `strip` is one slice of the input, with white space on both sides of it and a non-space at both of its ends |
| PyStr.Find | docs/generate.py:27 | the index of the first occurrence of a character, or the length when there is none; the character does not occur before it |
| PyStr.FindAt | docs/generate.py:27 | any index holding the first occurrence is what `Find` returns |
| PyStr.SplitOnce | docs/generate.py:17 | `split(c, 1)` unpacked into two parts: it fails iff `c` is absent, and otherwise `s` is the first part, `c`, then the second, with no `c` in the first part |
| PyStr.SplitLines | docs/generate.py:25 | `splitlines` yields pieces without line breaks, and yields nothing iff the text is empty |
| PyStr.SplitLinesOfJoin | docs/generate.py:25 | splitting the newline-join of break-free lines (the last one non-empty) gives the lines back |
| PyStr.SplitLinesCons | docs/generate.py:25 | a break-free line followed by `\n` splits off as one line, before the lines of the rest |
| TextWrap.ExpandTabs | docs/generate.py:39 | tab expansion leaves no tab in the text |
| TextWrap.Munge | docs/generate.py:39 | every white-space character becomes a plain space |
| TextWrap.Chunks | docs/generate.py:39 | the chunks are non-empty, and the first begins with the text's first character |
| TextWrap.Fit | docs/generate.py:39 | the longest prefix of chunks that fits the room; the next chunk would overflow it |
| TextWrap.Fill | docs/generate.py:39 | one line's fill: the line and the leftover chunks spell the input chunks; the line holds the input's leading whole chunks except perhaps a broken last one; the leftover after its first chunk is the input's tail; the line is full (the next chunk does not fit behind it); with room the line fits it, and with none the line is one forced character |
| TextWrap.BrokenParted | docs/generate.py:39 | cutting the chunk that does not fit at the room left keeps the characters, keeps the line full and leaves the later chunks unchanged |
| TextWrap.BrokenSpells | docs/generate.py:39 | cutting a chunk into a head and a tail, with the head closing the line and the tail opening the leftover, keeps the text the chunks spell |
| TextWrap.BrokenFull | docs/generate.py:39 | the line cut at the room left is full: the tail that does not fit would take it past the width |
| TextWrap.ConcatSplit | docs/generate.py:39 | the text of a list of chunks is the text of any prefix followed by the text of the rest |
| TextWrap.BrokenFilled | docs/generate.py:39 | a word longer than the width is cut at the room left on the line, and its tail goes back onto the chunks |
| TextWrap.WholeFilled | docs/generate.py:39 | when no word is too long, the line takes the chunks that fit and leaves the rest |
| TextWrap.TrimEnd | docs/generate.py:39 | dropping the trailing white-space chunk never lengthens a line |
| TextWrap.Pass | docs/generate.py:39 | one pass of the wrap loop consumes input, keeping the termination measure, and adds at most one line; that line starts with its indent and fits the width when the indent is shorter than it; the visible text of the lines and of the chunks left, together, is unchanged |
| TextWrap.GrowsPrefix | docs/generate.py:39 | a pass that adds at most one line keeps the lines already emitted as a prefix |
| TextWrap.BodiesEmitted | docs/generate.py:39 | a line appended behind its indent adds exactly its chunks to the text of the lines without indents |
| TextWrap.TrimEndVisible | docs/generate.py:39 | dropping a trailing white-space chunk loses no visible character |
| TextWrap.DropSpaceVisible | docs/generate.py:39 | dropping a white-space chunk at the start of a line loses no visible character |
| TextWrap.MoveVisible | docs/generate.py:39 | the characters a filled line takes from the chunks reach the lines, less white space only |
| TextWrap.WrapLines | docs/generate.py:39 | the wrap loop only appends to the lines already emitted |
| TextWrap.WrapLinesShaped | docs/generate.py:47-49 | every emitted line starts with its own indent (the first with the initial one), and fits the width when both indents are shorter than it |
| TextWrap.ShapedGrow | docs/generate.py:47-49 | adding a line that starts with its indent and fits the width keeps every line so shaped |
| TextWrap.WrapLinesVisible | docs/generate.py:39 | the wrap loop moves every visible character of the chunks, in order, into the lines |
| TextWrap.ConcatChunks | docs/generate.py:39 | splitting into chunks loses nothing: the chunks spell the text |
| TextWrap.ExpandTabsVisible | docs/generate.py:39 | tab expansion changes white space only |
| TextWrap.BlankedVisible | docs/generate.py:39 | turning white space into spaces keeps the visible characters |
| TextWrap.MungeVisible | docs/generate.py:39 | the white-space munging keeps every visible character in order |
| TextWrap.Wrap | docs/generate.py:47-53 | `textwrap.wrap`: each line starts with its indent, each fits the width when the indents are shorter than it, the lines with their indents removed hold exactly the visible characters of the text in order (only white space is lost, long words included), and empty text gives no lines |
| TextWrap.HaltsIndent | docs/generate.py:47-49 | an initial indent no longer than the width meets `Wrap`'s precondition for any text |
| TextWrap.HaltsFrom | docs/generate.py:39 | text that is empty or starts with a non-space meets `Wrap`'s precondition for any indent |
| DocGen.Unframe | docs/generate.py:6-10 | fails with `NoOpening` iff the stripped text does not start with `/**`; otherwise fails only with `NoClosing`, or gives the text between `/**` (left-stripped) and the final `*/` |
| DocMain.FramedStrip | docs/generate.py:6-10 | a text of at least five characters that starts `/**` and ends `*/` always passes both assertions |
| DocGen.DecorLen | docs/generate.py:11 | a line is decorated iff its leading white space is followed by `*`; the decoration is that white space, the `*` and at most two spaces or tabs |
| DocGen.UndecorateFramed | docs/generate.py:11 | taking the ` * ` decoration off lines framed with it gives back exactly the lines joined by newlines |
| DocGen.Reflow | docs/generate.py:13 | a newline survives iff the next character is `[` or another newline, a newline that does not survive becomes a space, and every other character is kept |
| DocGen.CollapseSpaces | docs/generate.py:14 | no two spaces are adjacent afterwards, the non-space characters are unchanged, and the text is empty iff it was and keeps its first character |
| DocGen.CollapseSpacesSqueezes | docs/generate.py:14 | collapsing the runs equals dropping, character by character, each space that directly follows a space: every run becomes its first space |
| DocGen.SqueezedRun | docs/generate.py:14 | after a space, a whole further run of spaces is dropped |
| DocGen.StripIndent | docs/generate.py:15 | no line (the first one included when it starts the text) begins with a space, the non-space characters are unchanged, and no double space is created |
| DocGen.StripIndentDedents | docs/generate.py:15 | stripping equals dropping, character by character, each space with only spaces between it and the start of its line, and keeping every other character |
| DocGen.DedentedRun | docs/generate.py:15 | at the start of a line a whole run of spaces is dropped |
| DocGen.Normalise | docs/generate.py:13-15 | after the three substitutions no two spaces are adjacent and no line begins with a space |
| DocGen.SplitNameBrief | docs/generate.py:17-19 | fails with `NoName` iff there is no newline, otherwise only with `NoBrief`; on success the text is name, newline, brief, newline, rest, with no newline in the name or the brief |
| DocGen.SplitNameBriefOf | docs/generate.py:17-19 | a name and a brief without newlines followed by any body split back into exactly those three |
| DocGen.TagOfSpec | docs/generate.py:26-28 | a tag line's tag is the stripped text between `[` and the first `]`, and its content the stripped rest |
| DocGen.ParamNameSpec | docs/generate.py:30 | a parameter's name is the stripped text between the first `:` and the next `:` |
| DocGen.DescOfAppend | docs/generate.py:25-35 | the description of two runs of lines is the first's followed by the second's |
| DocGen.ParamsOfAppend | docs/generate.py:25-35 | parameters are collected in line order with duplicates kept: the list for two runs is the first's followed by the second's |
| DocGen.RetvalOfAppend | docs/generate.py:32-33 | a later `[Return value]` overwrites an earlier one: the last one wins |
| DocGen.OtherTagDropped | docs/generate.py:26-35 | a tag line that is neither a parameter nor the return value adds nothing to any of the three |
| DocGen.GatherTags | docs/generate.py:25-35 | the loop that appends to `desc` and `params` and overwrites `retval` computes exactly the three folds over the lines |
| DocGen.ParseTags | docs/generate.py:25-37 | the tag pass over `splitlines` of the body: the description right-stripped, the parameters, and the return value |
| DocGen.ParamsClean | docs/generate.py:28-31 | every parameter name and description is stripped |
| DocGen.DocumentNoOpening | docs/generate.py:6-7 | `convert` fails for a missing opening iff the stripped block does not start `/**` |
| DocGen.DocumentNoName | docs/generate.py:17 | for a framed block, `convert` fails for a missing name iff the normalised text has no newline |
| DocGen.DocumentHeading | docs/generate.py:38 | every rendered section begins `## ` with the entry's name and a newline |
| DocGen.SectionHeading | docs/generate.py:38-54 | a section built from any parts begins with its `## name` heading line |
| DocGen.ReturnPartPresent | docs/generate.py:50-53 | the return bullet is printed iff there is a return value and it is not the empty string |
| DocGen.BulletFits | docs/generate.py:46-49 | for a parameter name shorter than 59 characters, every line of its bullet is at most 79 characters, the first starting with the bullet and the others with two spaces |
| DocGen.Convert | docs/generate.py:5-54 | the method running `convert` step by step returns what `Document` defines for that block and signature |
| DocMain.FindClose | docs/generate.py:64 | the lazy `.+?\*/` stops at the first `*/` at or after its start, or at the end when there is none |
| DocMain.FindSemi | docs/generate.py:64 | the lazy `[^;]*?;` stops at the first `;` |
| DocMain.MatchAt | docs/generate.py:64 | a match at `i` is a comment block (opens `/** `, holds text, closes at the first `*/`) followed by a declaration up to the first `;` |
| DocMain.MatchAtFinds | docs/generate.py:64 | conversely, a comment block at `i` followed by a declaration is exactly the match found there |
| DocMain.BlockCloses | docs/generate.py:64 | a comment block at `i` opens there, and the non-greedy search from its text finds the block's own closing `*/` first |
| DocMain.DeclarationEnds | docs/generate.py:64 | the search for `;` after a block stops at the declaration's own final `;` |
| DocMain.BlockAt | docs/generate.py:64 | the text from an opening `/** ` to the first following `*/` is a comment block (opens `/** `, holds no earlier `*/`, ends `*/`) |
| DocMain.DeclarationAt | docs/generate.py:64 | the text after a block up to and including the first `;` is a declaration with no other `;` |
| DocMain.ScanMatch | docs/generate.py:64 | `findall` takes the match at the first opening and carries on after that match's `;` |
| DocMain.ScanShape | docs/generate.py:64 | every scanned pair is a comment block followed by a declaration |
| DocMain.ScanNone | docs/generate.py:64 | a text with no `/** ` gives no pairs |
| DocMain.NoBlocks | docs/generate.py:59-66 | with no `/** ` in the source the output is exactly the preamble and nothing fails |
| DocMain.IdentAt | docs/generate.py:65 | the identifier quoted at a position is `W65C02SCE_` followed by the longest run of `[A-Z0-9_]`; there is one whenever the prefix is followed by such a character |
| DocMain.IdentAtIdent | docs/generate.py:65 | the prefix and a longest run of `[A-Z0-9_]` are measured as one identifier |
| DocMain.QuoteIdent | docs/generate.py:65 | an identifier followed by a character outside `[A-Z0-9_]` comes out between back-ticks, and quoting goes on behind it |
| DocMain.QuoteSplit | docs/generate.py:65 | text that starts with an identifier is quoted as that identifier between back-ticks followed by the quoted remainder |
| DocMain.QuotePlain | docs/generate.py:65 | text in which `W65C02SCE_` does not occur comes out unchanged |
| DocMain.QuoteOnlyTicks | docs/generate.py:65 | the substitution only inserts back-ticks: removing all back-ticks from before and after gives the same text |
| DocMain.QuoteKeepsOpening | docs/generate.py:65 | a block that starts `/**` still does after quoting |
| DocMain.QuoteKeepsClosing | docs/generate.py:65 | a block that ends `*/` still does after quoting |
| DocMain.ScannedUnframes | docs/generate.py:64-66 | every scanned block, once quoted, passes `convert`'s framing assertions |
| DocMain.RunSnoc | docs/generate.py:64-66 | one more pair either adds its section to the output or stops the run with its error |
| DocMain.RunPrefix | docs/generate.py:64-66 | once a pair has failed, no later pair changes the output |
| DocMain.Emit | docs/generate.py:64-66 | the driver loop writes the preamble and then the section of each pair in order, and stops at the first failing pair |
| DocMain.Generate | docs/generate.py:56-66 | the whole generator: the preamble followed by the sections of the scanned, quoted pairs, up to the first error |
| Alu.Carry | include/w65c02s.h:751 | `GET_P(C)` is 0 or 1, and 1 iff C is set |
| Alu.SetP | include/w65c02s.h:753-754 | `SET_P` puts one flag to the given value and keeps every other bit |
| Alu.Signed | include/w65c02s.h:980-984 | the two's-complement value of a byte: in -128..127 and equal to the byte modulo 256 |
| Alu.MarkNz | include/w65c02s.h:930-935 | N is bit 7 of the value and Z is set iff it is 0; no other flag changes |
| Alu.MarkNzc | include/w65c02s.h:937-941 | C is set iff the carry argument is non-zero, the value is truncated to 8 bits, and N and Z show it; no other flag changes |
| Alu.MarkNzc8 | include/w65c02s.h:943-946 | C is bit 8 of a nine-bit sum, and N and Z show its low byte |
| Alu.Inc | include/w65c02s.h:948-950 | INC sets N and Z from its result and touches no other flag |
| Alu.Dec | include/w65c02s.h:952-954 | DEC sets N and Z from its result and touches no other flag |
| Alu.IncDecInverse | include/w65c02s.h:948-954 | INC and DEC undo each other modulo 256; INC of 0xFF is 0 and DEC of 0 is 0xFF |
| Alu.Asl | include/w65c02s.h:956-959 | C is the old bit 7, the result is the value doubled modulo 256, and N and Z show it |
| Alu.Lsr | include/w65c02s.h:961-964 | C is the old bit 0, the result is the value halved (below 0x80), and N and Z show it |
| Alu.Rol | include/w65c02s.h:966-971 | C is the old bit 7, the old C becomes bit 0, and the other bits shift up |
| Alu.Ror | include/w65c02s.h:973-978 | C is the old bit 0, the old C becomes bit 7, and the other bits shift down |
| Alu.RotateInverse | include/w65c02s.h:966-978 | ROR after ROL (and ROL after ROR) restores both the value and C |
| Alu.ShiftBack | include/w65c02s.h:956-964 | LSR after ASL loses only bit 7, and ASL after LSR loses only bit 0 |
| Alu.AdcV | include/w65c02s.h:980-984 | the carry into bit 7 XOR the carry out of bit 7 is 1 iff the signed sum a + b + c leaves -128..127 |
| Alu.SignedOverflow | include/w65c02s.h:980-984 | the two carries agree iff the signed sum is in range |
| Alu.AddDigit | include/w65c02s.h:992-994 | one BCD digit of ADC: decimal digits give a decimal digit, with the half carry making up the difference to the digit sum |
| Alu.SubDigit | include/w65c02s.h:1014-1016 | one BCD digit of SBC on a complemented digit: decimal digits give the decimal difference together with the borrow |
| Alu.Join | include/w65c02s.h:1000 | `(hi << 4) \| lo` has exactly those two nibbles |
| Alu.AddBcd | include/w65c02s.h:992-998 | the two digits of decimal ADC and the full carry make up BCD(a) + BCD(b) + c |
| Alu.SubBcd | include/w65c02s.h:1014-1020 | the two digits of decimal SBC and the full carry make up BCD(a) - BCD(b) - (1 - c), with `b` complemented beforehand |
| Alu.AddDigitsValue | include/w65c02s.h:992-1000 | digits that make up a total give the BCD of the total modulo 100, and carry iff the total is at least 100 |
| Alu.SubDigitsValue | include/w65c02s.h:1014-1022 | digits that make up a difference give its BCD modulo 100, with carry iff there was no borrow |
| Alu.DecimalFlags | include/w65c02s.h:1001-1005 | P gets only the decimal C; `p_adj` gets the decimal N, Z and C and keeps the rest, V included |
| Alu.AdcD | include/w65c02s.h:986-1007 | decimal ADC of BCD operands gives the BCD of (a + b + c) mod 100, with C iff the sum is at least 100, in both P and `p_adj`; V is untouched |
| Alu.SbcD | include/w65c02s.h:1009-1030 | decimal SBC of BCD operands gives the BCD of (a - b - (1 - c)) mod 100, with C iff no borrow |
| Alu.AddBinary | include/w65c02s.h:1032-1037 | binary ADC: (a + b + c) mod 256, C iff the sum reaches 256, V iff signed overflow, and N and Z from the result; D and I are kept |
| Alu.SubtractByAdding | include/w65c02s.h:1042-1049 | adding the complement of `b` is subtracting `b` with borrow: the same result modulo 256, C iff no borrow, and the complement's signed value is -b - 1 |
| Alu.Adc | include/w65c02s.h:1032-1040 | ADC changes only N, V, Z and C of P |
| Alu.Sbc | include/w65c02s.h:1042-1051 | SBC changes only N, V, Z and C of P |
| Alu.AdcSteps | include/w65c02s.h:1032-1040 | ADC is the binary step, followed by the decimal step iff D is set |
| Alu.SbcSteps | include/w65c02s.h:1042-1051 | SBC is the binary step on `~b`, followed by the decimal step iff D is set |
| Alu.AdcBinary | include/w65c02s.h:1032-1039 | with D clear, A' = (a + b + C) mod 256, C' iff the sum reaches 256, N and Z from A', and `p_adj` unchanged |
| Alu.SbcBinary | include/w65c02s.h:1042-1049 | with D clear, A' = (a - b - (1 - C)) mod 256 and C' iff no borrow |
| Alu.AdcOverflow | include/w65c02s.h:1036 | in both modes V is set iff the signed sum overflows |
| Alu.AdcDecimalNz | include/w65c02s.h:1037-1039 | in decimal mode P's N and Z still show the binary sum |
| Alu.AdcDecimalShowsBinary | include/w65c02s.h:1037-1039 | in decimal mode P's N and Z are those of the binary step |
| Alu.AdcDecimalCarry | include/w65c02s.h:1005 | in decimal mode the decimal step changes only C of P |
| Alu.AdcDecimalAdj | include/w65c02s.h:1001-1005 | in decimal mode `p_adj` shows the decimal result's N and Z and carries the same C as P |
| Alu.AdcDecimal | include/w65c02s.h:986-1040 | decimal-mode ADC of BCD operands gives the BCD of (A + B + C) mod 100, with C iff the sum is at least 100 |
| Alu.SbcOverflow | include/w65c02s.h:1046-1047 | V is set iff the signed difference a - b - (1 - C) overflows |
| Alu.SbcDecimalNz | include/w65c02s.h:1048-1050 | in decimal mode P's N and Z still show the binary difference |
| Alu.SbcDecimalAdj | include/w65c02s.h:1023-1027 | in decimal mode `p_adj` shows the decimal result's N and Z and carries the same C as P |
| Alu.SbcDecimal | include/w65c02s.h:1009-1051 | decimal-mode SBC of BCD operands gives the BCD of (A - B - (1 - C)) mod 100, with C iff no borrow |
| Alu.SbcIsAdcOfNot | include/w65c02s.h:1042-1051 | SBC is ADC of `~b` in binary mode, and has the same V in both modes |
| Alu.Cmp | include/w65c02s.h:1053-1056 | CMP sets C iff a >= b, Z iff a = b and N from bit 7 of a - b, and changes nothing else |
| Alu.Bit | include/w65c02s.h:1058-1063 | BIT takes N and V from bits 7 and 6 of the operand and sets Z iff a & b = 0, and changes nothing else |
| Alu.BitImm | include/w65c02s.h:1065-1068 | immediate BIT changes only Z |
| Alu.SetBits | include/w65c02s.h:1070-1074 | the masked bits are all set or all cleared, and the others kept |
| Alu.Tsb | include/w65c02s.h:1070-1074 | TSB/TRB return b \| a or b & ~a, set Z from a & b, and change nothing else |
| Alu.Rmw | include/w65c02s.h:1076-1088 | the six read-modify-write operations set N and Z from their result and change at most N, Z and C (INC and DEC not C); any other operation returns `v` with P unchanged |
| Alu.Logical | include/w65c02s.h:1093-1095 | AND, EOR and ORA put the bitwise result in A with its N and Z, and leave `p_adj` alone |
| Alu.LogicBits | include/w65c02s.h:1093-1095 | the bitwise AND, XOR or OR of the operands |
| Alu.Logic | include/w65c02s.h:1090-1101 | a non-arithmetic `oper_alu` gives the bitwise result, or `b` for an unknown operation, with N and Z from it |
| Alu.AluOp | include/w65c02s.h:1090-1101 | `oper_alu` changes only N, V, Z and C of P |
| Alu.Branch | include/w65c02s.h:1103-1118 | each of BPL..BEQ tests one flag (N, V, C, Z in pairs), with odd operations branching when it is set; BRA always branches, and anything else never does |
| Alu.BitSet | include/w65c02s.h:1120-1123 | RMB/SMB set (`oper & 8`) or clear bit `oper & 7` and keep the other bits |
| Alu.BitBranchAfterSet | include/w65c02s.h:1120-1128 | BBS/BBR test the same bit that SMB/RMB change: right after the bit operation the branch is taken, and the test reads only that bit |
| Alu.OperIsStore | include/w65c02s.h:1174-1183 | the store operations are exactly STA, STX, STY and STZ |
| Alu.StackAddr | include/w65c02s.h:770-771 | a stack address lies in 0x0100..0x01FF, its low byte being S |
| Alu.BranchTarget | include/w65c02s.h:1194-1205 | the new PC is (PC + sign-extended offset) mod 65536 |
| Decode.DecodeZeroIsBrk | include/w65c02s.h:2361-2373 | opcode 0, which `handle_interrupt` decodes, is BRK in its stack mode |
| Decode.DecodeRange | include/w65c02s.h:2103-2327 | every decoded mode number lies within the mode numbering and every operation number is at most 19 |
| Decode.ZeropageBitOpcodes | include/w65c02s.h:2103-2327 | the RMB/SMB mode belongs exactly to the opcodes x7, and their operation is the opcode's high nibble |
| Decode.RelativeBitOpcodes | include/w65c02s.h:2103-2327 | the BBR/BBS mode belongs exactly to the opcodes xF, and their operation is the opcode's high nibble |
| Decode.BranchOpcodes | include/w65c02s.h:2103-2327 | the relative mode belongs exactly to the eight conditional branches (opcode mod 32 = 0x10) and BRA (0x80) |
| Decode.BranchEncoding | include/w65c02s.h:1103-1118 | a decoded branch opcode tests N, V, C or Z by its top two bits, and branches when the flag equals bit 5 |
| Decode.RmbSmbEncoding | include/w65c02s.h:1120-1123 | a decoded RMBn/SMBn changes bit n, setting it iff the opcode is at least 0x80 |
| Decode.BbrBbsEncoding | include/w65c02s.h:1125-1128 | a decoded BBRn/BBSn branches iff bit n is set for BBS, or clear for BBR |
| Machine.InsertState | include/w65c02s.h:644-645 | `CPU_STATE_INSERT` sets the run state to the given one and keeps every other bit |
| Machine.ResetSignal | include/w65c02s.h:2660-2664 | `w65c02s_reset` puts the run state to RESET, clears the pending IRQ and NMI bits, and keeps the higher bits |
| Machine.NmiSignal | include/w65c02s.h:2652-2658 | `w65c02s_nmi` sets the NMI line; a waiting CPU goes to RUN with NMI pending, otherwise the state word is unchanged |
| Machine.IrqSignal | include/w65c02s.h:2666-2672 | `w65c02s_irq` sets the IRQ line; a waiting CPU goes to RUN, with IRQ pending iff already pending or unmasked |
| Machine.IrqCancelTrig | include/w65c02s.h:2674-2676 | `irq_cancel` clears only the IRQ bit of `int_trig` |
| Machine.UpdateMask | include/w65c02s.h:1140-1142 | the mask lets IRQ through iff I is clear, and always lets NMI through |
| Machine.LatchHonoursMask | include/w65c02s.h:1144-1146 | latching never drops a pending bit, always passes NMI, and passes IRQ iff I is clear |
| Machine.LatchSlowSamples | include/w65c02s.h:1148-1151 | after the slow latch IRQ is pending iff the line is active and I is clear |
| Machine.ServeLowersPriority | include/w65c02s.h:2361-2373 | RESET comes before NMI and NMI before IRQ: serving one leaves only a lower kind pending, nothing is pending after RESET, and serving an NMI clears its line |
| Machine.ClearedRun | include/w65c02s.h:2343-2345 | after `handle_reset`'s updates the state is RUN with neither interrupt pending |
| Machine.ClearedBit | include/w65c02s.h:650-661 | clearing the NMI or IRQ bit keeps the run state and the other bit |
| Machine.PushStack | include/w65c02s.h:1130-1133 | a push writes the byte at 0x0100 + S, then S becomes S - 1 mod 256, and no other memory byte changes |
| Machine.PullAfterPush | include/w65c02s.h:1130-1138 | a pull right after a push returns the pushed byte and restores S |
| Machine.PushAfterPull | include/w65c02s.h:1130-1138 | pushing back the byte just pulled restores both S and memory |
| Machine.ReadOpPenalty | include/w65c02s.h:1208-1236 | the decimal-mode penalty cycle is taken exactly for ADC and SBC with D set |
| Machine.ReadOpTargets | include/w65c02s.h:1208-1236 | A changes only for AND..SBC and LDA, X only for LDX, Y only for LDY, and only N, V, Z and C of P change |
| Machine.ReadOpLoads | include/w65c02s.h:1228-1230 | LDA/LDX/LDY load the operand into their register and set N and Z from it |
| Machine.T16 | include/w65c02s.h:784 | `GET_T16` is the little-endian word of two bytes |
| Machine.Cpu.MarkNz | include/w65c02s.h:930-935 | updates P in place as `Alu.MarkNz` and returns the value |
| Machine.Cpu.MarkNzc | include/w65c02s.h:937-941 | updates P in place as `Alu.MarkNzc` |
| Machine.Cpu.MarkNzc8 | include/w65c02s.h:943-946 | updates P in place as `Alu.MarkNzc8` |
| Machine.Cpu.OperInc | include/w65c02s.h:948-950 | updates P in place as `Alu.Inc` |
| Machine.Cpu.OperDec | include/w65c02s.h:952-954 | updates P in place as `Alu.Dec` |
| Machine.Cpu.OperAsl | include/w65c02s.h:956-959 | updates P in place as `Alu.Asl` |
| Machine.Cpu.OperLsr | include/w65c02s.h:961-964 | updates P in place as `Alu.Lsr` |
| Machine.Cpu.OperRol | include/w65c02s.h:966-971 | updates P in place as `Alu.Rol` |
| Machine.Cpu.OperRor | include/w65c02s.h:973-978 | updates P in place as `Alu.Ror` |
| Machine.Cpu.OperAdcD | include/w65c02s.h:986-1007 | updates P and `p_adj` in place as `Alu.AdcD` |
| Machine.Cpu.OperSbcD | include/w65c02s.h:1009-1030 | updates P and `p_adj` in place as `Alu.SbcD` |
| Machine.Cpu.AddBinaryStep | include/w65c02s.h:1036-1037 | the V and `mark_nzc8` updates of ADC/SBC leave P as `Alu.AddBinary` says |
| Machine.Cpu.OperAdc | include/w65c02s.h:1032-1040 | updates P and `p_adj` in place as `Alu.Adc` |
| Machine.Cpu.OperSbc | include/w65c02s.h:1042-1051 | updates P and `p_adj` in place as `Alu.Sbc` |
| Machine.Cpu.OperCmp | include/w65c02s.h:1053-1056 | updates P in place as `Alu.Cmp` |
| Machine.Cpu.OperBit | include/w65c02s.h:1058-1063 | updates P in place as `Alu.Bit` |
| Machine.Cpu.OperBitImm | include/w65c02s.h:1065-1068 | updates P in place as `Alu.BitImm` |
| Machine.Cpu.OperTsb | include/w65c02s.h:1070-1074 | updates P in place as `Alu.Tsb` and returns its value |
| Machine.Cpu.OperRmw | include/w65c02s.h:1076-1088 | updates P in place as `Alu.Rmw` |
| Machine.Cpu.OperAlu | include/w65c02s.h:1090-1101 | updates P and `p_adj` in place as `Alu.AluOp` |
| Machine.Cpu.StackPush | include/w65c02s.h:1130-1133 | updates S and memory in place as `PushStack` |
| Machine.Cpu.StackPull | include/w65c02s.h:1135-1138 | updates S as `PullStack` and returns the byte read |
| Machine.Cpu.ComputeBranch | include/w65c02s.h:1194-1205 | `tr[0..1]` receive the PC and `tr[2..3]` the branch target for the offset held in `tr[0]`, with `tr[4]` kept |
| Machine.Cpu.OperRead | include/w65c02s.h:1208-1290 | the registers and the penalty flag move as `ReadOp` says |
| Machine.Cpu.OperImm | include/w65c02s.h:1208-1236 | `oper_imm`: the registers and the penalty flag move as `ReadOp` with BIT immediate |
| Machine.Cpu.OperAddr | include/w65c02s.h:1239-1290 | `oper_addr`: a store writes its register (0 for STZ) at the address and changes nothing else; any other operation reads that byte and acts as `ReadOp` |
| Machine.Cpu.IrqUpdateMask | include/w65c02s.h:1140-1142 | `int_mask` becomes `UpdateMask(P)` |
| Machine.Cpu.IrqLatch | include/w65c02s.h:1144-1146 | the state word becomes `Latch` of the lines and the mask |
| Machine.Cpu.IrqLatchSlow | include/w65c02s.h:1148-1151 | the state word becomes `LatchSlow` of the lines and the mask |
| Machine.Cpu.IrqReset | include/w65c02s.h:1153-1161 | clears the highest of `in_rst`, `in_nmi` and `in_irq` that is set, and only that one |
| Machine.Cpu.DecodeIr | include/w65c02s.h:2324-2327 | mode and operation become the two table entries of the opcode |
| Machine.Cpu.HandleReset | include/w65c02s.h:2339-2348 | marks RESET in service, clears the other two, puts the state to RUN with nothing pending, and sets the A1 and B bits of P |
| Machine.Cpu.HandleNmi | include/w65c02s.h:2350-2354 | marks NMI in service and clears NMI in both `int_trig` and the state word |
| Machine.Cpu.HandleIrq | include/w65c02s.h:2356-2359 | marks IRQ in service and clears its pending bit |
| Machine.Cpu.HandleInterrupt | include/w65c02s.h:2361-2373 | serves exactly the interrupt `Pending` finds (RESET, then NMI, then IRQ), decodes BRK iff one was served, and changes only that kind's bookkeeping |
| Machine.Cpu.Nmi | include/w65c02s.h:2652-2658 | the state word and `int_trig` move as `NmiSignal` |
| Machine.Cpu.Reset | include/w65c02s.h:2660-2664 | the state word moves as `ResetSignal` |
| Machine.Cpu.Irq | include/w65c02s.h:2666-2672 | the state word and `int_trig` move as `IrqSignal` |
| Machine.Cpu.IrqCancel | include/w65c02s.h:2674-2676 | `int_trig` moves as `IrqCancelTrig` |
| Machine.Cpu.RegGetP | include/w65c02s.h:2752-2754 | P as read has A1 and B set and all other bits as stored |
| Machine.Cpu.RegSetP | include/w65c02s.h:2776-2779 | P becomes the value with A1 and B forced on, reads back unchanged, and the IRQ mask follows its I bit |
| Machine.Cpu.constructor | include/w65c02s.h:2571-2592 | `w65c02s_init`: no line active, nothing in service, and the CPU in the RESET state |
| OperSplit.SplitAdcD | src/oper.c:105-125 | split decimal ADC of BCD operands gives the BCD of (a + b + c) mod 100, and N, Z and C (iff the sum is at least 100) go only to `p_adj` |
| OperSplit.SplitSbcD | src/oper.c:127-147 | split decimal SBC of BCD operands gives the BCD of (a - b - (1 - c)) mod 100, and N, Z and C (iff no borrow) go only to `p_adj` |
| OperSplit.DecimalCarryToP | src/oper.c:105-147 | the header's decimal steps are the split build's plus the decimal C copied into P |
| OperSplit.SplitAdcSteps | src/oper.c:149-156 | split ADC is the binary step, followed by the split decimal step iff D is set, which leaves P as the binary step left it |
| OperSplit.SplitSbcSteps | src/oper.c:158-166 | split SBC is the binary step on `~b`, followed by the split decimal step iff D is set |
| OperSplit.AdcFlags | src/oper.c:149-156 | in both modes P's C is the binary carry and V the signed overflow, and only N, V, Z and C change; in decimal mode `p_adj` shows the decimal N and Z |
| OperSplit.SbcFlags | src/oper.c:158-166 | in both modes P's C means no binary borrow and V the signed overflow of the difference |
| OperSplit.AdcDecimal | src/oper.c:105-156 | decimal ADC of BCD operands: the BCD of (A + B + C) mod 100, with `p_adj`'s C iff the sum is at least 100 |
| OperSplit.SbcDecimal | src/oper.c:127-166 | decimal SBC of BCD operands: the BCD of (A - B - (1 - C)) mod 100, with `p_adj`'s C iff no borrow |
| OperSplit.MatchesHeader | src/oper.c:149-166 | the split ADC/SBC agree with the header's on A and `p_adj`, and on P up to the decimal C the header copies into it |
| OperSplit.CarryDiffers | src/oper.c:149-156 | decimal 0x99 + 0x01 gives 0x00 with the decimal carry in `p_adj`, but P's C is clear in the split build and set in the header |
| OperSplit.AluMatchesHeader | src/oper.c:168-178 | the split `oper_alu` is the header's for every operation but ADC/SBC, and for those too in binary mode; it changes only N, V, Z and C |
| OperSplit.HeaderBranch | src/decode.h:104-112 | the header's number for a split-build branch operation is a valid branch |
| OperSplit.BranchNumbering | src/oper.c:180-193 | renumbered, the two `oper_branch` functions agree on the nine branches; each conditional tests one flag; past BEQ the split build branches and the header does not |
| OperSplit.SplitCpu.UpdateFlagsNz | src/oper.c:16-21 | updates P in place as `Alu.MarkNz` |
| OperSplit.SplitCpu.UpdateFlagsNzc | src/oper.c:23-27 | updates P in place as `Alu.MarkNzc` |
| OperSplit.SplitCpu.UpdateFlagsNzcAdc | src/oper.c:29-32 | updates P in place as `Alu.MarkNzc8` |
| OperSplit.SplitCpu.OperRmw | src/oper.c:62-73 | updates P in place as `Alu.Rmw`; an unknown operation returns `v` with P untouched |
| OperSplit.SplitCpu.OperCmp | src/oper.c:75-78 | updates P in place as `Alu.Cmp` |
| OperSplit.SplitCpu.OperBit | src/oper.c:80-86 | updates P in place as `Alu.Bit` |
| OperSplit.SplitCpu.OperBitImm | src/oper.c:88-91 | updates P in place as `Alu.BitImm` |
| OperSplit.SplitCpu.OperTsb | src/oper.c:93-97 | updates P in place as `Alu.Tsb` |
| OperSplit.SplitCpu.OperAdcD | src/oper.c:105-125 | writes only `p_adj`, as `SplitAdcD` |
| OperSplit.SplitCpu.OperSbcD | src/oper.c:127-147 | writes only `p_adj`, as `SplitSbcD` |
| OperSplit.SplitCpu.AddBinaryStep | src/oper.c:152-153 | the V and `update_flags_nzc_adc` updates leave P as `Alu.AddBinary` says |
| OperSplit.SplitCpu.OperAdc | src/oper.c:149-156 | updates P and `p_adj` in place as `SplitAdc` |
| OperSplit.SplitCpu.OperSbc | src/oper.c:158-166 | updates P and `p_adj` in place as `SplitSbc` |
| OperSplit.SplitCpu.OperAlu | src/oper.c:168-178 | updates P and `p_adj` in place as `SplitAlu` |
| MonitorText.NextOffset | test/monitor.c:1216 | the 16-bit address counter wraps: stepping once more past an offset is the next offset |
| MonitorText.ToUpper | test/monitor.c:792 | `toupper` maps a-z to A-Z and leaves every other character alone |
| MonitorText.SkipSpace | test/monitor.c:89-92 | `prune` stops at the first character that is not white space, or at the end |
| MonitorText.SkipSpaceSkipsSpace | test/monitor.c:89-92 | everything `prune` skips is white space |
| MonitorText.Prune | test/monitor.c:89-92 | the cursor loop ends where `SkipSpace` says |
| MonitorText.OctToDecValue | test/monitor.c:94-106 | `octtodec` maps 0-7 to their values and every other character to -1 |
| MonitorText.HexToDecValue | test/monitor.c:108-128 | `hextodec` maps 0-9, A-F and a-f to 0..15 (a lower-case digit as its upper-case one) and every other character to -1 |
| MonitorText.HexChar | test/monitor.c:838 | the `%X` digit of 0..15 is a hex digit that `hextodec` maps back to it |
| MonitorText.Hex2 | test/monitor.c:838 | `%02X` gives two characters (read back by `ReadByteOfHex2`) |
| MonitorText.Hex4 | test/monitor.c:849 | `%04X` gives four characters (read back by `ReadAddressOfHex4`) |
| MonitorText.ReadByteSpec | test/monitor.c:130-143 | `readbyte` succeeds iff the next two characters are hex digits; then the value is hi * 16 + lo and the cursor moves by 2 |
| MonitorText.ReadByteOfHex2 | test/monitor.c:130-143 | `readbyte` reads back a byte printed with `%02X` |
| MonitorText.ReadByteOfDigits | test/monitor.c:130-143 | two hex digits read as their value |
| MonitorText.HexEnd | test/monitor.c:150 | the hex digits run up to the first character that is not one |
| MonitorText.ReadAddress | test/monitor.c:145-158 | a successful `readaddress` moves the cursor forward |
| MonitorText.ReadAddressAfterGap | test/monitor.c:150-151 | `strtoul` skips white space after the `$`: the digits after the gap are read, and the cursor ends behind them |
| MonitorText.SkipSpaceTo | test/monitor.c:89-92 | `prune` stops exactly at the first character after a run of white space |
| MonitorText.ReadAddressOfHex4 | test/monitor.c:145-158 | `readaddress` reads back `$` and a word printed with `%04X` |
| MonitorText.ReadAddressOfDigits | test/monitor.c:145-158 | `$` and four hex digits, followed by a non-digit, read as their value, and the cursor moves by 5 |
| MonitorEncode.LittleEndian | test/monitor.c:216-219 | `asmpush16` pushes the low byte and then the high byte |
| MonitorEncode.Capped | test/monitor.c:211-214 | the buffer keeps a prefix of what was pushed and never holds more than 8 bytes |
| MonitorEncode.CappedAppend | test/monitor.c:211-214 | pushing in two steps fills the buffer as pushing everything at once would |
| MonitorEncode.Corrected | test/monitor.c:701-772 | the corrected table changes only the CPX and CPY masks and leaves every other row alone |
| MonitorEncode.KeyIsLexicographic | test/monitor.c:774-778 | the numeric key orders three-letter mnemonics as `strcmp` does, and tells different ones apart |
| MonitorEncode.EntriesSorted | test/monitor.c:701-772 | any earlier table row has a smaller mnemonic than any later one |
| MonitorEncode.TableSorted | test/monitor.c:701-772 | `asm_opcode_table` is strictly sorted by mnemonic, as `bsearch` needs |
| MonitorEncode.Find | test/monitor.c:797-801 | the lookup finds a row with the mnemonic, or none exists |
| MonitorEncode.FindUnique | test/monitor.c:797-801 | in a sorted table the lookup finds exactly the row holding the mnemonic |
| MonitorEncode.FindBetween | test/monitor.c:797-801 | a mnemonic that sorts between two neighbouring rows is not found |
| MonitorEncode.Recognize | test/monitor.c:787-801 | a recognised line names a row of the table |
| MonitorEncode.StoreAt | test/monitor.c:809-810 | after the write loop, byte j of the instruction is at the address plus j mod 65536 |
| MonitorEncode.StoreElsewhere | test/monitor.c:809-810 | the write loop leaves every other byte of memory alone |
| MonitorAsm.ReadIndex | test/monitor.c:267-276 | the `,X`/`,Y` suffix loop reads the index as `Suffix` says |
| MonitorAsm.Lookup | test/monitor.c:797-801 | the binary search over the sorted table gives what `Find` gives |
| MonitorAsm.ReadBbrOperands | test/monitor.c:358-365 | the two BBR operands are read as `BbrOperands` says |
| MonitorAsm.ReadMnemonic | test/monitor.c:792-794 | the loop reads as many characters as `Letters` counts (at most three, stopping at the end of the line), and when it reads three they are the upper-cased `Mnemonic3` |
| MonitorAsm.Assembler.constructor | test/monitor.c:208-209 | an empty buffer, zeroed memory, and the sorted table |
| MonitorAsm.Assembler.Push | test/monitor.c:211-214 | `asmpush` appends a byte unless the 8 bytes are full |
| MonitorAsm.Assembler.Push16 | test/monitor.c:216-219 | `asmpush16` appends the little-endian word, capped at 8 bytes |
| MonitorAsm.Assembler.PushSized | test/monitor.c:281-287 | pushes the absolute opcode and a word iff the address is 0x100 or above, else the zero-page opcode and a byte |
| MonitorAsm.Assembler.AsmImmediate | test/monitor.c:230-237 | the `#` form: an operand of 0x100 or more fails, otherwise the opcode and the byte are pushed |
| MonitorAsm.Assembler.AsmIndirect | test/monitor.c:238-264 | the `(zp)`, `(zp,X)` and `(zp),Y` forms push as `Indirect` says |
| MonitorAsm.Assembler.AsmOne | test/monitor.c:221-224 | `asm_one` pushes the mask |
| MonitorAsm.Assembler.AsmAlu | test/monitor.c:226-290 | `asm_alu` pushes and returns as `Alu` |
| MonitorAsm.Assembler.AsmRmw | test/monitor.c:292-317 | `asm_rmw`, corrected to step past an `A` operand, pushes and returns as the corrected `Rmw`; the code as written is `MonitorEncode.RmwAsWritten` (see "## Findings") |
| MonitorAsm.Assembler.AsmRmwOwn | test/monitor.c:319-337 | `asm_rmw_inc`/`asm_rmw_dec`, corrected to step past an `A` operand, push and return as the corrected `RmwOwn`; the code as written is `MonitorEncode.RmwOwnAsWritten` |
| MonitorAsm.Assembler.AsmRmb | test/monitor.c:339-350 | `asm_rmb`, corrected to put the bit number in the opcode as `d << 4`, pushes and returns as the corrected `Rmb`; the code as written (`d << 3`) is `MonitorEncode.RmbAsWritten` |
| MonitorAsm.Assembler.AsmBbr | test/monitor.c:352-369 | `asm_bbr`, corrected to put the bit number in the opcode as `d << 4`, pushes and returns as the corrected `Bbr`; the code as written (`d << 3`) is `MonitorEncode.BbrAsWritten` |
| MonitorAsm.Assembler.AsmBra | test/monitor.c:371-379 | `asm_bra` pushes and returns as `Bra` |
| MonitorAsm.Assembler.AsmBit | test/monitor.c:381-409 | `asm_bit` pushes and returns as `Bit` |
| MonitorAsm.Assembler.AsmCpx | test/monitor.c:411-432 | `asm_cpx` pushes and returns as the corrected `Cpx` |
| MonitorAsm.Assembler.AsmLdx | test/monitor.c:434-462 | `asm_ldx` pushes and returns as `Ldx` |
| MonitorAsm.Assembler.AsmLdy | test/monitor.c:464-492 | `asm_ldy` pushes and returns as `Ldy` |
| MonitorAsm.Assembler.AsmSta | test/monitor.c:494-550 | `asm_sta` pushes and returns as `Sta` |
| MonitorAsm.Assembler.AsmStx | test/monitor.c:552-578 | `asm_stx` pushes and returns as `Stx` |
| MonitorAsm.Assembler.AsmSty | test/monitor.c:580-606 | `asm_sty` pushes and returns as `Sty` |
| MonitorAsm.Assembler.AsmStz | test/monitor.c:608-628 | `asm_stz` pushes and returns as `Stz` |
| MonitorAsm.Assembler.AsmTsb | test/monitor.c:630-642 | `asm_tsb` pushes and returns as `Tsb` |
| MonitorAsm.Assembler.AsmJmp | test/monitor.c:644-668 | `asm_jmp` pushes and returns as `Jmp` |
| MonitorAsm.Assembler.AsmJsr | test/monitor.c:670-677 | `asm_jsr` pushes and returns as `Jsr` |
| MonitorAsm.Assembler.AsmBrk | test/monitor.c:679-693 | `asm_brk` pushes and returns as `Brk` |
| MonitorAsm.Assembler.AsmRow | test/monitor.c:803 | calling a row's `assemble` pointer pushes and returns as `Encode` |
| MonitorAsm.Assembler.Write | test/monitor.c:809-810 | the buffer is stored from `address_asm` on, which then moves past it mod 65536 |
| MonitorAsm.Assembler.ReadStatement | test/monitor.c:787-801 | the start of the line is read as `Recognize` says, and the buffer is emptied for an instruction |
| MonitorAsm.Assembler.EncodeLine | test/monitor.c:787-807 | one line, read with the corrected CPX/CPY masks (`Corrected`), the corrected encoders and the corrected result check, gives what `Assemble` defines, and the buffer then holds the assembled bytes; the check as written is `MonitorEncode.AcceptAsWritten` |
| MonitorAsm.Assembler.Conclude | test/monitor.c:804-807 | the checks after the encoder, corrected so that a failing encoder is an error, give what `Accept` defines; the check as written, with its `unsigned` result, is `MonitorEncode.AcceptAsWritten` |
| MonitorAsm.Assembler.AssembleLine | test/monitor.c:781-815 | one iteration of `doassemble` with the corrected CPX/CPY masks, encoders and result check of `EncodeLine`: an assembled line is stored at `address_asm`, which moves past it; an error or blank line leaves memory and address alone |
| MonitorDisasm.ZpText | test/monitor.c:834-841 | the text `disasmoutzp` prints (`$` and two digits) is three characters long |
| MonitorDisasm.AbsText | test/monitor.c:843-852 | the text `disasmoutabs` prints (`$` and four digits) is five characters long |
| MonitorDisasm.OperandLength | test/monitor.c:854-939 | each `disasm_*` mode returns an operand length of 0, 1 or 2 |
| MonitorDisasm.OperandTextFits | test/monitor.c:817-939 | no operand text overflows the 64-byte buffer |
| MonitorDisasm.OperandReadsItsLength | test/monitor.c:854-939 | an operand's text depends only on the operand-length bytes after the opcode |
| MonitorDisasm.AbsTextReadsBack | test/monitor.c:843-852 | `readaddress` reads back the word `disasmoutabs` prints |
| MonitorDisasm.ByteColumn | test/monitor.c:1215-1217 | the byte column has three characters per byte |
| MonitorDisasm.Padding | test/monitor.c:1218-1220 | the padding has three spaces per missing byte |
| MonitorDisasm.ColumnsAlign | test/monitor.c:1215-1220 | the byte column and its padding always fill 15 characters |
| MonitorDisasm.ByteColumnAt | test/monitor.c:1215-1217 | entry j of the byte column is byte j printed with `%02X` and a space |
| MonitorDisasm.ByteColumnReadsBack | test/monitor.c:1215-1217 | `readbyte` reads back every byte of the column |
| MonitorDisasm.Disassembler.constructor | test/monitor.c:818-819 | an empty buffer at the given address |
| MonitorDisasm.Disassembler.OutChr | test/monitor.c:821-824 | appends the character unless the buffer is full |
| MonitorDisasm.Disassembler.OutStr | test/monitor.c:826-832 | appends the string unless the buffer is full |
| MonitorDisasm.Disassembler.OutZp | test/monitor.c:834-841 | appends `ZpText` unless the buffer is full |
| MonitorDisasm.Disassembler.OutAbs | test/monitor.c:843-852 | appends `AbsText` unless the buffer is full |
| MonitorDisasm.Disassembler.DisasmImplied | test/monitor.c:854-856 | prints nothing and returns 0 |
| MonitorDisasm.Disassembler.DisasmImm | test/monitor.c:858-862 | prints `#$nn` and returns 1 |
| MonitorDisasm.Disassembler.DisasmZp | test/monitor.c:864-867 | prints `$nn` and returns 1 |
| MonitorDisasm.Disassembler.DisasmZpx | test/monitor.c:869-873 | prints `$nn,X` and returns 1 |
| MonitorDisasm.Disassembler.DisasmZpy | test/monitor.c:875-879 | prints `$nn,Y` and returns 1 |
| MonitorDisasm.Disassembler.DisasmZpr | test/monitor.c:881-886 | prints `$nn,$mm` and returns 2 |
| MonitorDisasm.Disassembler.DisasmIzp | test/monitor.c:888-893 | prints `($nn)` and returns 1 |
| MonitorDisasm.Disassembler.DisasmIzx | test/monitor.c:895-901 | prints `($nn,X)` and returns 1 |
| MonitorDisasm.Disassembler.DisasmIzy | test/monitor.c:903-908 | prints `($nn),Y` and returns 1 |
| MonitorDisasm.Disassembler.DisasmAbs | test/monitor.c:910-913 | prints `$nnnn` and returns 2 |
| MonitorDisasm.Disassembler.DisasmAbx | test/monitor.c:915-919 | prints `$nnnn,X` and returns 2 |
| MonitorDisasm.Disassembler.DisasmAby | test/monitor.c:921-925 | prints `$nnnn,Y` and returns 2 |
| MonitorDisasm.Disassembler.DisasmInd | test/monitor.c:927-932 | prints `($nnnn)` and returns 2 |
| MonitorDisasm.Disassembler.DisasmIax | test/monitor.c:934-939 | prints `($nnnn,X)` and returns 2 |
| MonitorDisasm.Disassembler.Operand | test/monitor.c:1211 | the mode's function prints `OperandText` and returns `OperandLength` |
| MonitorDisasm.Disassembler.Disassemble | test/monitor.c:1207-1226 | `disassemble` prints `Line` and moves the address past the opcode and its operand-length bytes, that is len + 1 bytes |
| MonitorDisasm.ByteColumns | test/monitor.c:1215-1220 | the two loops of `disassemble` print the len + 1 instruction bytes, moving the address over them with 16-bit wrap-around, then pad to the width of four bytes |
| MonitorRoundTrip.SizedForm | test/monitor.c:281-287 | the absolute-or-zero-page choice emits one of the two forms |
| MonitorRoundTrip.SkipSpaceTwice | test/monitor.c:89-92 | `prune` is idempotent |
| MonitorRoundTrip.EncodeForms | test/monitor.c:221-693 | whatever a row's encoder emits on success is one of that row's (opcode, operand length) forms |
| MonitorRoundTrip.SimpleForms | test/monitor.c:221-693 | the same for the one-byte, branch, STX, STY, JMP, JSR and BRK encoders |
| MonitorRoundTrip.ReadModifyForms | test/monitor.c:226-369 | the same for ALU, RMW, INC/DEC, RMB and BBR rows |
| MonitorRoundTrip.CompareLoadForms | test/monitor.c:381-492 | the same for BIT, CPX/CPY, LDX and LDY rows |
| MonitorRoundTrip.StoreForms | test/monitor.c:494-642 | the same for STA, STZ and TSB/TRB rows |
| MonitorRoundTrip.ImmediateForm | test/monitor.c:230-237 | an immediate operand emits its opcode and one byte |
| MonitorRoundTrip.IndirectForm | test/monitor.c:238-264 | an indirect operand emits one of its three opcodes and one byte |
| MonitorRoundTrip.AluForms | test/monitor.c:226-290 | `asm_alu` emits `mask` plus 0x09, 0x11, 0x01, 0x12, 0x19, 0x0D/0x1D or 0x05/0x15, with the operand's length |
| MonitorRoundTrip.RmwForms | test/monitor.c:292-317 | `asm_rmw` emits the accumulator form or `mask` plus 0x0E/0x1E or 0x06/0x16 |
| MonitorRoundTrip.RmwOwnForms | test/monitor.c:319-337 | INC/DEC emit their own accumulator opcode or an `asm_rmw` form |
| MonitorRoundTrip.RmbForms | test/monitor.c:339-350 | the corrected `asm_rmb` (`d << 4`) emits one of the row's eight opcodes and one byte; as written, the opcode is `RmbAsWritten`'s |
| MonitorRoundTrip.BbrForms | test/monitor.c:352-369 | the corrected `asm_bbr` (`d << 4`) emits one of the row's eight opcodes and two bytes; as written, the opcode is `BbrAsWritten`'s |
| MonitorRoundTrip.BitModeForms | test/monitor.c:381-409 | `asm_bit` emits 0x89, 0x2C/0x3C or 0x24/0x34 |
| MonitorRoundTrip.CpxForms | test/monitor.c:411-432 | the corrected `asm_cpx` emits the mask, or the mask plus 0x0C or 0x04 |
| MonitorRoundTrip.LdxForms | test/monitor.c:434-462 | `asm_ldx` emits 0xA2, 0xAE/0xBE or 0xA6/0xB6 |
| MonitorRoundTrip.LdyForms | test/monitor.c:464-492 | `asm_ldy` emits 0xA0, 0xAC/0xBC or 0xA4/0xB4 |
| MonitorRoundTrip.StaForms | test/monitor.c:494-550 | `asm_sta` emits 0x91, 0x81, 0x92, 0x99, 0x8D/0x9D or 0x85/0x95 |
| MonitorRoundTrip.StzForms | test/monitor.c:608-628 | `asm_stz` emits 0x9E, 0x9C, 0x64 or 0x74 |
| MonitorRoundTrip.TsbForms | test/monitor.c:630-642 | `asm_tsb` emits the mask plus 0x0C or 0x04 |
| MonitorRoundTrip.StxForms | test/monitor.c:552-578 | `asm_stx` emits 0x96, 0x8E or 0x86 |
| MonitorRoundTrip.StyForms | test/monitor.c:580-606 | `asm_sty` emits 0x94, 0x8C or 0x84 |
| MonitorRoundTrip.JmpForms | test/monitor.c:644-668 | `asm_jmp` emits 0x7C, 0x6C or 0x4C with a word |
| MonitorRoundTrip.AcceptAssembled | test/monitor.c:803-810 | an assembled line is the encoder's bytes, from an encoder that succeeded |
| MonitorRoundTrip.AssembledIsAForm | test/monitor.c:780-816 | with the corrected masks, encoders and result check of `Assemble`, an assembled line names a row with the line's mnemonic and is 1 to 8 bytes long, an opcode of one of that row's forms followed by its operand |
| MonitorRoundTrip.DisassemblerNames | test/monitor.c:948-1205 | the disassembler names 0xCC CPY, 0xEC and 0xE0 CPX, 0x0F BBR0, 0x17 RMB1, 0x0A ASL and 0xA1 LDA |
| MonitorRoundTrip.Rows | test/monitor.c:701-772 | the ASL, CPX, CPY, LDA and RMB rows of the table, CPX with mask 0xC0 and CPY with 0xE0 |
| MonitorRoundTrip.CompareImmediateAsWritten | test/monitor.c:411-419 | as written, `CPX #$10` assembles to 0xCC 0x10, which the disassembler reads as CPY |
| MonitorRoundTrip.CompareAbsoluteAsWritten | test/monitor.c:420-430 | as written, `CPY $1234` assembles to 0xEC, which is CPX absolute |
| MonitorRoundTrip.Read1234 | test/monitor.c:145-158 | `readaddress` reads `$1234` |
| MonitorRoundTrip.CompareImmediate | test/monitor.c:411-419 | corrected, `CPX #$10` assembles to 0xE0 0x10 |
| MonitorRoundTrip.CompareReadsBack | test/monitor.c:411-432 | corrected, every CPX or CPY form the assembler emits is named by the disassembler with the same mnemonic and operand length |
| MonitorRoundTrip.CompareRow | test/monitor.c:411-432 | each form of the corrected CPX and CPY rows reads back |
| MonitorRoundTrip.CompareMasks | test/monitor.c:411-432 | the corrected masks give 0xEC/0xE4 for CPX and 0xCC/0xC4 for CPY |
| MonitorRoundTrip.CompareOpcodes | test/monitor.c:948-1205 | the disassembler names the three CPX and three CPY opcodes and gives their operand lengths |
| MonitorRoundTrip.BitNumberAsWritten | test/monitor.c:339-350 | as written, `RMB1 $12` assembles to 0x0F, which is BBR0 |
| MonitorRoundTrip.BitNumber | test/monitor.c:339-350 | corrected, `RMB1 $12` assembles to 0x17, which is RMB1 |
| MonitorRoundTrip.BranchBitNumberAsWritten | test/monitor.c:352-369 | as written, `BBR2 $12,$34` assembles to 0x1F 0x12 0x34, the opcode of BBR1 |
| MonitorRoundTrip.BranchBitNumber | test/monitor.c:352-369 | with the corrected shift, `BBR2 $12,$34` assembles to 0x2F 0x12 0x34, the opcode of BBR2 |
| MonitorRoundTrip.BranchEncodes | test/monitor.c:352-369 | once the bit number and both operands are read, `asm_bbr` pushes the opcode and the low bytes of the two operands, and returns the characters read, with the opcode as written (`d << 3`) and as corrected (`d << 4`) |
| MonitorRoundTrip.AccumulatorOperand | test/monitor.c:292-299 | for a line ending in `A`, the corrected `asm_rmw` assembles the accumulator form, while as written it is an error |
| MonitorRoundTrip.AccumulatorOperandOwn | test/monitor.c:319-337 | the same for INC and DEC, with their own accumulator opcodes |
| MonitorRoundTrip.NeverCaught | test/monitor.c:784-804 | as written, the `unsigned` check `i < 0` is never true |
| MonitorRoundTrip.MissingParenthesis | test/monitor.c:238-262 | `LDA ($12,X` fails after pushing 0xA1 0x12 |
| MonitorRoundTrip.UncaughtFailure | test/monitor.c:803-810 | for that line, the corrected check reports an error, while as written the bytes are assembled |

## Left out

- DocGen.Section: the layout after the heading (the wrapped brief, the fenced `c` block with the stripped signature, one wrapped paragraph and an empty line per description line) is given by its definition only. The proved properties are the heading, the presence of the return bullet and the width of the bullets.
- File and console I/O. The generator's reading of `../src/w65c02s.h` and writing of `api.md` become a function from source text to output text. The monitor's `readline`, `printf` and `puts` are left out too; its printed line is a string.
- Python's `re` and `textwrap` libraries. The four regular expressions are written as hand-made scanners and substitutions.
- TextWrap.Wrap: implements `textwrap.wrap` without breaking at hyphens (`break_on_hyphens`). Over-long words are broken as in the library.
- TextWrap.Wrap: requires a termination condition (`Halts`) on its input. `HaltsIndent` discharges it for every indent no longer than the width, which covers every indent the generator uses.
- The cycle-by-cycle addressing-mode bodies and execution loops of the emulator, its cycle counters, and its hooks. These are resumable per-cycle state machines driven through memory callbacks.
- Memory-access callbacks. `W65C02S_READ`/`W65C02S_WRITE` become a plain 64 KiB memory. A read has no side effect.
- Compile-time configuration variants. The model follows a plain C build without `W65C02S_COARSE`, `W65C02S_LINK` or hooks. There, `W65C02S_UNREACHABLE()` is empty, so each switch's fall-through value is modelled.
- src/decode.c, src/w65c02s.c and the test and benchmark programs are not part of this model.
- The monitor's command loop, `readcount`, `doinput`, file load and dump, `runcpu` and the register dumps.
- MonitorText.ReadAddress: reads `$`, white space and hex digits into a 16-bit value. It does not model `strtoul`'s leading sign and `0x` prefix, or its overflow to `ULONG_MAX`.
- MonitorEncode.AcceptAsWritten: when the encoder fails, C adds `(unsigned)-1` to the line cursor and reads outside the line, which is undefined behaviour. The model reads that position as the end of the line.
- MonitorAsm.Lookup: `bsearch` is a binary search whose result is proved equal to the linear `Find`. The C library's exact probing order is not modelled.
- MonitorRoundTrip.CompareReadsBack: the round trip between assembler and disassembler is proved only for the CPX and CPY rows. For every other row the model proves only which (opcode, operand length) forms the encoder can emit (`EncodeForms`).

## Findings

Each as-written definition is exhibited by a lemma in `MonitorRoundTrip`, and the rest of the model uses the corrected one: `CompareImmediateAsWritten` and `CompareAbsoluteAsWritten` against `CompareImmediate` and `CompareReadsBack`; `BitNumberAsWritten` against `BitNumber`; `BranchBitNumberAsWritten` against `BranchBitNumber`; `NeverCaught` and the second half of `UncaughtFailure` against its first half; and the two halves of `AccumulatorOperand` and `AccumulatorOperandOwn`.

| source | as written | input that shows it | evidently intended | confidence | as-written member | corrected member |
|---|---|---|---|---|---|---|
| test/monitor.c:411-432 | `asm_cpx` emits `mask \| 0x0C` for an immediate operand and always 0xEC/0xE4 otherwise, while the table gives CPX mask 0xC0 and CPY mask 0xE0 | `CPX #$10` gives 0xCC 0x10 (CPY absolute); `CPY $1234` gives 0xEC (CPX absolute) | the row's own opcodes: CPX 0xE0/0xEC/0xE4, CPY 0xC0/0xCC/0xC4 | not executed | MonitorEncode.CpxAsWritten | MonitorEncode.Cpx |
| test/monitor.c:339-350 | RMB/SMB put the bit number in the opcode as `d << 3` | `RMB1 $12` gives 0x0F (BBR0) | `d << 4`, giving 0x17 (RMB1) | not executed | MonitorEncode.RmbAsWritten | MonitorEncode.Rmb |
| test/monitor.c:352-369 | BBR/BBS put the bit number in the opcode as `d << 3`, as RMB/SMB do | `BBR2 $12,$34` gives 0x1F (BBR1) | `d << 4`, giving 0x2F (BBR2) | not executed | MonitorEncode.BbrAsWritten | MonitorEncode.Bbr |
| test/monitor.c:784-804 | the encoder's result is stored in an `unsigned`, so `if (i < 0)` never catches a failed encoder | `LDA ($12,X` (missing `)`): the failed encoder's -1 becomes `(unsigned)-1`, and the cursor moved by it is undefined behaviour in C; reading that position as the end of the line, as the model does, the line is assembled as 0xA1 0x12 | a failing encoder reports a line error | not executed | MonitorEncode.AcceptAsWritten | MonitorEncode.Accept |
| test/monitor.c:292-317 | `asm_rmw` returns without stepping past an `A` operand, so the trailing-text check sees the `A`; `asm_rmw_inc` and `asm_rmw_dec` (lines 319-337) do the same | `ASL A` is an error | the accumulator form is assembled | not executed | MonitorEncode.RmwAsWritten | MonitorEncode.Rmw |
