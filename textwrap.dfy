/**
 Python's `textwrap.wrap(text, width, initial_indent=..., subsequent_indent=...)`
 with its default options (tabs expanded to 8 columns, whitespace replaced,
 whitespace dropped at line ends, long words broken), for text in which no word
 can be split at a hyphen.
 */
module TextWrap {
  import opened PyStr

  /** textwrap's own whitespace set, `'\t\n\x0b\x0c\r '`, used to split words. */
  predicate IsWrapSpace(c: char) {
    c == '\t' || c == '\n' || c == '\U{0B}' || c == '\U{0C}' || c == '\r' || c == ' '
  }

  /** `s.expandtabs(8)`, continuing from column `col`: a tab advances to the
      next multiple of 8, and `\n` or `\r` returns to column 0. */
  function ExpandTabs(s: string, col: nat): (r: string)
    ensures '\t' !in r
  {
    if s == [] then []
    else if s[0] == '\t' then
      var n := 8 - col % 8;
      Spaces(n) + ExpandTabs(s[1..], col + n)
    else if s[0] == '\n' || s[0] == '\r' then [s[0]] + ExpandTabs(s[1..], 0)
    else [s[0]] + ExpandTabs(s[1..], col + 1)
  }

  function Spaces(n: nat): (r: string)
    ensures |r| == n && forall i :: 0 <= i < n ==> r[i] == ' '
  {
    if n == 0 then [] else [' '] + Spaces(n - 1)
  }

  /** `_munge_whitespace`: tabs expanded, then every textwrap whitespace
      character replaced by a space. */
  function Munge(s: string): (r: string)
    ensures forall i :: 0 <= i < |r| ==> !IsWrapSpace(r[i]) || r[i] == ' '
  {
    var e := ExpandTabs(s, 0);
    seq(|e|, i requires 0 <= i < |e| => if IsWrapSpace(e[i]) then ' ' else e[i])
  }

  /** Length of the leading run of characters that are spaces (`sp`) or not. */
  function RunLen(s: string, sp: bool): (n: nat)
    ensures n <= |s|
    ensures forall i :: 0 <= i < n ==> (s[i] == ' ') == sp
    ensures n < |s| ==> (s[n] == ' ') != sp
  {
    if s == [] || (s[0] == ' ') != sp then 0 else 1 + RunLen(s[1..], sp)
  }

  /** `_split` without hyphen breaking: alternating runs of spaces and words,
      none of them empty. */
  function Chunks(s: string): (r: seq<string>)
    ensures forall i :: 0 <= i < |r| ==> r[i] != []
    ensures s != [] ==> r != [] && r[0][0] == s[0]
    decreases |s|
  {
    if s == [] then []
    else
      var k := RunLen(s, s[0] == ' ');
      [s[..k]] + Chunks(s[k..])
  }

  /** Total length of a list of chunks. */
  function Size(cs: seq<string>): nat {
    if cs == [] then 0 else |cs[0]| + Size(cs[1..])
  }

  function Concat(cs: seq<string>): (r: string)
    ensures |r| == Size(cs)
  {
    if cs == [] then [] else cs[0] + Concat(cs[1..])
  }

  /** How many leading chunks fit, one after the other, in `room` columns. */
  function Fit(cs: seq<string>, room: int): (n: nat)
    ensures n <= |cs|
    ensures Size(cs[..n]) <= room || n == 0
    ensures n < |cs| ==> Size(cs[..n]) + |cs[n]| > room
  {
    if cs == [] || |cs[0]| > room then 0
    else
      var n := 1 + Fit(cs[1..], room - |cs[0]|);
      assert cs[..n][1..] == cs[1..][..n - 1];
      n
  }

  /** Python slices `s[:k]` and `s[k:]`, which clamp `k` to the length. */
  function Take(s: string, k: nat): (r: string)
    ensures |r| <= k && |r| <= |s|
    ensures k <= |s| ==> |r| == k
  {
    if k <= |s| then s[..k] else s
  }

  function Drop(s: string, k: nat): (r: string)
    ensures s == Take(s, k) + r
  {
    if k <= |s| then s[k..] else []
  }

  /** What keeps `_wrap_chunks` from getting stuck: only the first chunk may
      be empty (the remainder of a broken chunk), and the first line does not
      start with whitespace when its indent leaves no room. */
  predicate Halts(chunks: seq<string>, lines: seq<string>, width: nat, init: string) {
    (forall i :: 1 <= i < |chunks| ==> chunks[i] != [])
    && (lines != [] || |init| <= width || chunks == [] || !AllSpace(chunks[0]))
  }

  /** The chunks of one line, and the chunks left over, for `w` columns of
      room: whole chunks while they fit, then, if the next chunk is longer than
      the room, as much of it as the room left allows (one character when the
      room is less than one column). */
  function Fill(cs: seq<string>, w: int): (r: (seq<string>, seq<string>))
    requires w >= 0 || cs == [] || cs[0] != []
    ensures Filled(cs, w, r)
  {
    var n := Fit(cs, w);
    if n < |cs| && |cs[n]| > w then
      var room: nat := if w < 1 then 1 else w - Size(cs[..n]);
      BrokenFilled(cs, w, n, room);
      (cs[..n] + [Take(cs[n], room)], [Drop(cs[n], room)] + cs[n + 1..])
    else
      WholeFilled(cs, w, n);
      (cs[..n], cs[n..])
  }

  /** What a filled line and its leftover chunks keep: the line and the
      leftover spell the chunks, the line holds whole chunks except perhaps a
      broken last one, only the first leftover chunk may differ from the
      input's, the line is full (the next chunk does not fit behind it), a
      smaller remainder, the room, the forced single character when there is
      no room, and that only the first leftover chunk may be empty. */
  predicate Filled(cs: seq<string>, w: int, r: (seq<string>, seq<string>)) {
    Parted(cs, w, r) && Bounded(cs, w, r)
  }

  predicate Parted(cs: seq<string>, w: int, r: (seq<string>, seq<string>)) {
    Concat(r.0) + Concat(r.1) == Concat(cs)
    && (forall i :: 0 <= i < |r.0| - 1 && i < |cs| ==> r.0[i] == cs[i])
    && (r.1 != [] ==> |r.1| <= |cs| && r.1[1..] == cs[|cs| - |r.1| + 1..])
    && (r.1 != [] ==> Size(r.0) + |r.1[0]| > w)
  }

  predicate Bounded(cs: seq<string>, w: int, r: (seq<string>, seq<string>)) {
    Size(r.0) + Size(r.1) == Size(cs) && |r.1| <= |cs|
    && (cs != [] ==> Size(r.1) < Size(cs) || |r.1| < |cs|)
    && (w >= 1 ==> Size(r.0) <= w)
    && (w < 1 && cs != [] && |cs[0]| > w ==>
          r.0 == [Take(cs[0], 1)] && r.1 == [Drop(cs[0], 1)] + cs[1..])
    && ((forall i :: 1 <= i < |cs| ==> cs[i] != []) ==> forall i :: 1 <= i < |r.1| ==> r.1[i] != [])
  }

  /** The chunk that does not fit is broken at the room left. */
  lemma BrokenFilled(cs: seq<string>, w: int, n: nat, room: nat)
    requires w >= 0 || cs == [] || cs[0] != []
    requires n == Fit(cs, w) && n < |cs| && |cs[n]| > w
    requires room == if w < 1 then 1 else w - Size(cs[..n])
    ensures Filled(cs, w, (cs[..n] + [Take(cs[n], room)], [Drop(cs[n], room)] + cs[n + 1..]))
  {
    var taken, rest := cs[..n], cs[n..];
    var head, tail := Take(rest[0], room), Drop(rest[0], room);
    SizeSplit(cs, n);
    SizeSplit(rest, 1);
    assert rest[..1] == [rest[0]] && rest[1..] == cs[n + 1..];
    Size1(rest[0]);
    Size1(tail);
    SizeAppend(taken, head);
    SizeCons(tail, rest[1..]);
    assert n == 0 ==> |head| > 0;
    assert ([tail] + rest[1..])[1..] == cs[n + 1..];
    LaterNonEmpty(cs, [tail] + rest[1..], n + 1);
    BrokenParted(cs, w, n, room);
  }

  lemma BrokenParted(cs: seq<string>, w: int, n: nat, room: nat)
    requires w >= 0 || cs == [] || cs[0] != []
    requires n == Fit(cs, w) && n < |cs| && |cs[n]| > w
    requires room == if w < 1 then 1 else w - Size(cs[..n])
    ensures Parted(cs, w, (cs[..n] + [Take(cs[n], room)], [Drop(cs[n], room)] + cs[n + 1..]))
  {
    var head, tail := Take(cs[n], room), Drop(cs[n], room);
    assert cs[n] == head + tail;
    BrokenSpells(cs, n, head, tail);
    BrokenFull(cs, w, n, room);
    assert ([tail] + cs[n + 1..])[1..] == cs[n + 1..];
  }

  /** Breaking chunk `n` into `head` and `tail` keeps the text. */
  lemma BrokenSpells(cs: seq<string>, n: nat, head: string, tail: string)
    requires n < |cs| && cs[n] == head + tail
    ensures Concat(cs[..n] + [head]) + Concat([tail] + cs[n + 1..]) == Concat(cs)
  {
    var rest := cs[n..];
    assert rest[1..] == cs[n + 1..];
    ConcatSplit(cs, n);
    assert Concat(rest) == rest[0] + Concat(rest[1..]);
    ConcatAppend(cs[..n], head);
    ConcatCons(tail, cs[n + 1..]);
    Regroup(Concat(cs[..n]), head, tail, Concat(cs[n + 1..]));
  }

  lemma Regroup(a: string, b: string, c: string, d: string)
    ensures (a + b) + (c + d) == a + ((b + c) + d)
  {
  }

  /** The line broken at the room left is full. */
  lemma BrokenFull(cs: seq<string>, w: int, n: nat, room: nat)
    requires w >= 0 || cs == [] || cs[0] != []
    requires n == Fit(cs, w) && n < |cs| && |cs[n]| > w
    requires room == if w < 1 then 1 else w - Size(cs[..n])
    ensures Size(cs[..n] + [Take(cs[n], room)]) + |Drop(cs[n], room)| > w
  {
    var head, tail := Take(cs[n], room), Drop(cs[n], room);
    SizeAppend(cs[..n], head);
    assert |cs[n]| == |head| + |tail|;
    if w < 1 {
      assert cs[n] != [];
    } else {
      assert |head| == room;
    }
  }

  lemma {:induction false} ConcatSplit(cs: seq<string>, n: nat)
    requires n <= |cs|
    ensures Concat(cs) == Concat(cs[..n]) + Concat(cs[n..])
  {
    if n > 0 {
      assert cs[..n][1..] == cs[1..][..n - 1];
      assert cs[n..] == cs[1..][n - 1..];
      ConcatSplit(cs[1..], n - 1);
    }
  }

  lemma ConcatCons(c: string, cs: seq<string>)
    ensures Concat([c] + cs) == c + Concat(cs)
  {
    assert ([c] + cs)[1..] == cs;
  }

  lemma ConcatAppend(cs: seq<string>, c: string)
    ensures Concat(cs + [c]) == Concat(cs) + c
  {
    ConcatSplit(cs + [c], |cs|);
    assert (cs + [c])[..|cs|] == cs && (cs + [c])[|cs|..] == [c];
    assert [c][1..] == [];
  }

  /** Everything that fits is taken whole. */
  lemma WholeFilled(cs: seq<string>, w: int, n: nat)
    requires w >= 0 || cs == [] || cs[0] != []
    requires n == Fit(cs, w) && !(n < |cs| && |cs[n]| > w)
    ensures Filled(cs, w, (cs[..n], cs[n..]))
  {
    SizeSplit(cs, n);
    ConcatSplit(cs, n);
    assert n > 0 || cs == [];
    if n < |cs| {
      assert cs[n..][1..] == cs[n + 1..];
      LaterNonEmpty(cs, cs[n..], n + 1);
    }
  }

  /** Only the first of the chunks left over may be empty: the others are
      chunks of `cs` after its first. */
  lemma LaterNonEmpty(cs: seq<string>, r: seq<string>, m: nat)
    requires 1 <= m <= |cs| && r != [] && r[1..] == cs[m..]
    ensures (forall i :: 1 <= i < |cs| ==> cs[i] != []) ==> forall i :: 1 <= i < |r| ==> r[i] != []
  {
    if forall i :: 1 <= i < |cs| ==> cs[i] != [] {
      forall i | 1 <= i < |r|
        ensures r[i] != []
      {
        assert r[i] == r[1..][i - 1] == cs[m + i - 1];
      }
    }
  }

  lemma Size1(c: string)
    ensures Size([c]) == |c|
  {
    assert [c][1..] == [];
  }

  lemma SizeCons(c: string, cs: seq<string>)
    ensures Size([c] + cs) == |c| + Size(cs)
  {
    assert ([c] + cs)[1..] == cs;
  }

  lemma SizeAppend(cs: seq<string>, c: string)
    ensures Size(cs + [c]) == Size(cs) + |c|
  {
    SizeSplit(cs + [c], |cs|);
    assert (cs + [c])[..|cs|] == cs && (cs + [c])[|cs|..] == [c];
    Size1(c);
  }

  /** `cur_line` loses a whitespace chunk at its end. */
  function TrimEnd(line: seq<string>): (r: seq<string>)
    ensures Size(r) <= Size(line)
  {
    if line != [] && AllSpace(line[|line| - 1]) then
      SizeSplit(line, |line| - 1);
      line[..|line| - 1]
    else line
  }

  /** One pass of the outer loop of `_wrap_chunks`: a whitespace chunk at the
      start of any line but the first is dropped, the line is filled, and a
      non-empty line is appended with its indent. */
  function Pass(chunks: seq<string>, lines: seq<string>, width: nat, init: string, sub: string): (r: (seq<string>, seq<string>))
    requires chunks != [] && Halts(chunks, lines, width, init)
    ensures Size(r.0) < Size(chunks) || (Size(r.0) == Size(chunks) && |r.0| < |chunks|)
    ensures Halts(r.0, r.1, width, init)
    ensures Grows(lines, r.1, if lines == [] then init else sub, width)
    ensures Visible(Bodies(r.1, init, sub)) + Visible(Concat(r.0))
      == Visible(Bodies(lines, init, sub)) + Visible(Concat(chunks))
  {
    var indent := if lines == [] then init else sub;
    var w := width - |indent|;
    var cs := if lines != [] && AllSpace(chunks[0]) then chunks[1..] else chunks;
    var (line, rest) := Fill(cs, w);
    PassHalts(chunks, lines, width, init, indent, cs, w, line, rest);
    EmittedShape(lines, indent, TrimEnd(line), width);
    DropSpaceVisible(chunks, cs);
    MoveVisible(lines, init, sub, line, rest, Concat(cs));
    (rest, Emitted(lines, indent, TrimEnd(line)))
  }

  /** `after` is `lines`, or `lines` with one more line that starts with the
      indent and, when the indent leaves room, fits the width. */
  predicate Grows(lines: seq<string>, after: seq<string>, indent: string, width: nat) {
    after == lines
    || (|after| == |lines| + 1 && after[..|lines|] == lines && StartsWith(after[|lines|], indent)
        && (|indent| < width ==> |after[|lines|]| <= width))
  }

  lemma GrowsPrefix(lines: seq<string>, after: seq<string>, indent: string, width: nat)
    requires Grows(lines, after, indent, width)
    ensures |lines| <= |after| && after[..|lines|] == lines
  {
    if after == lines {
      assert lines[..|lines|] == lines;
    }
  }

  /** The lines with the filled line appended behind its indent, unless the
      filled line is empty. */
  function Emitted(lines: seq<string>, indent: string, line: seq<string>): seq<string> {
    if line != [] then lines + [indent + Concat(line)] else lines
  }

  lemma EmittedShape(lines: seq<string>, indent: string, line: seq<string>, width: nat)
    requires |indent| < width ==> Size(line) <= width - |indent|
    ensures Grows(lines, Emitted(lines, indent, line), indent, width)
  {
    assert (lines + [indent + Concat(line)])[..|lines|] == lines;
    assert (indent + Concat(line))[..|indent|] == indent;
  }

  lemma PassHalts(chunks: seq<string>, lines: seq<string>, width: nat, init: string,
                  indent: string, cs: seq<string>, w: int, line: seq<string>, rest: seq<string>)
    requires chunks != [] && Halts(chunks, lines, width, init)
    requires lines == [] ==> indent == init
    requires w == width - |indent|
    requires cs == if lines != [] && AllSpace(chunks[0]) then chunks[1..] else chunks
    requires w >= 0 || cs == [] || cs[0] != []
    requires Bounded(cs, w, (line, rest))
    ensures Size(rest) < Size(chunks) || (Size(rest) == Size(chunks) && |rest| < |chunks|)
    ensures Halts(rest, Emitted(lines, indent, TrimEnd(line)), width, init)
    ensures |indent| < width ==> Size(TrimEnd(line)) <= width - |indent|
  {
    if cs != chunks {
      assert chunks == [chunks[0]] + cs;
      SizeCons(chunks[0], cs);
    }
    if lines == [] && w < 0 && cs != [] {
      FirstCharOrRest(cs[0]);
      assert [cs[0][0]] == Take(cs[0], 1) && cs[0][1..] == Drop(cs[0], 1);
    }
  }

  /** A chunk that is not all whitespace keeps a non-whitespace character
      either in its first character or in the rest. */
  lemma FirstCharOrRest(c: string)
    requires c != [] && !AllSpace(c)
    ensures !AllSpace([c[0]]) || !AllSpace(c[1..])
  {
    var i :| 0 <= i < |c| && !IsSpace(c[i]);
    if i > 0 {
      assert c[1..][i - 1] == c[i];
    } else {
      assert [c[0]][0] == c[i];
    }
  }

  /** `_wrap_chunks`, one `Pass` per call. */
  function WrapLines(chunks: seq<string>, lines: seq<string>, width: nat, init: string, sub: string): (r: seq<string>)
    requires Halts(chunks, lines, width, init)
    ensures |r| >= |lines| && r[..|lines|] == lines
    decreases Size(chunks), |chunks|
  {
    if chunks == [] then lines
    else
      var p := Pass(chunks, lines, width, init, sub);
      var r := WrapLines(p.0, p.1, width, init, sub);
      GrowsPrefix(lines, p.1, if lines == [] then init else sub, width);
      PrefixTrans(lines, p.1, r);
      r
  }

  lemma PrefixTrans<T>(a: seq<T>, b: seq<T>, c: seq<T>)
    requires |a| <= |b| && b[..|a|] == a
    requires |b| <= |c| && c[..|b|] == b
    ensures c[..|a|] == a
  {
    assert c[..|a|] == c[..|b|][..|a|];
  }

  lemma {:induction false} SizeSplit(cs: seq<string>, n: nat)
    requires n <= |cs|
    ensures Size(cs) == Size(cs[..n]) + Size(cs[n..])
  {
    if n > 0 {
      assert cs[..n][1..] == cs[1..][..n - 1];
      assert cs[n..] == cs[1..][n - 1..];
      SizeSplit(cs[1..], n - 1);
    }
  }

  /** The lines of a wrapped paragraph: the first begins with `init`, the
      others with `sub`, and with `bounded` none is longer than `width`. */
  predicate Shaped(r: seq<string>, width: nat, init: string, sub: string, bounded: bool) {
    forall i :: 0 <= i < |r| ==>
      StartsWith(r[i], if i == 0 then init else sub) && (bounded ==> |r[i]| <= width)
  }

  lemma {:induction false} WrapLinesShaped(chunks: seq<string>, lines: seq<string>, width: nat, init: string, sub: string)
    requires Halts(chunks, lines, width, init)
    requires Shaped(lines, width, init, sub, |init| < width && |sub| < width)
    ensures Shaped(WrapLines(chunks, lines, width, init, sub), width, init, sub, |init| < width && |sub| < width)
    decreases Size(chunks), |chunks|
  {
    if chunks != [] {
      var (rest, lines') := Pass(chunks, lines, width, init, sub);
      ShapedGrow(lines, lines', width, init, sub);
      WrapLinesShaped(rest, lines', width, init, sub);
    }
  }

  lemma ShapedGrow(lines: seq<string>, lines': seq<string>, width: nat, init: string, sub: string)
    requires Shaped(lines, width, init, sub, |init| < width && |sub| < width)
    requires Grows(lines, lines', if lines == [] then init else sub, width)
    ensures Shaped(lines', width, init, sub, |init| < width && |sub| < width)
  {
    if lines' != lines {
      forall i | 0 <= i < |lines'|
        ensures StartsWith(lines'[i], if i == 0 then init else sub)
        ensures |init| < width && |sub| < width ==> |lines'[i]| <= width
      {
        if i < |lines| {
          assert lines'[i] == lines'[..|lines|][i];
        }
      }
    }
  }

  // ---------------------------------------------------------------------
  // What wrapping keeps

  /** `s` without its whitespace. */
  function Visible(s: string): string {
    if s == [] then [] else (if IsSpace(s[0]) then [] else [s[0]]) + Visible(s[1..])
  }

  lemma {:induction false} VisibleAppend(a: string, b: string)
    ensures Visible(a + b) == Visible(a) + Visible(b)
  {
    if a != [] {
      assert (a + b)[1..] == a[1..] + b;
      VisibleAppend(a[1..], b);
    } else {
      assert a + b == b;
    }
  }

  lemma {:induction false} VisibleAllSpace(s: string)
    requires AllSpace(s)
    ensures Visible(s) == []
  {
    if s != [] {
      VisibleAllSpace(s[1..]);
    }
  }

  /** The text of wrapped lines once the indent of each is removed: `init`
      from the first line, `sub` from the others. */
  function Bodies(lines: seq<string>, init: string, sub: string): string {
    if lines == [] then []
    else
      var last := |lines| - 1;
      Bodies(lines[..last], init, sub) + Drop(lines[last], |if last == 0 then init else sub|)
  }

  /** A line appended behind its indent adds its chunks to the text. */
  lemma BodiesEmitted(lines: seq<string>, init: string, sub: string, line: seq<string>)
    ensures Bodies(Emitted(lines, if lines == [] then init else sub, line), init, sub)
      == Bodies(lines, init, sub) + Concat(line)
  {
    var indent := if lines == [] then init else sub;
    if line != [] {
      var l := lines + [indent + Concat(line)];
      assert l[..|lines|] == lines;
      assert Drop(indent + Concat(line), |indent|) == Concat(line);
    }
  }

  /** Dropping a whitespace chunk at the end of a line keeps its visible text. */
  lemma TrimEndVisible(line: seq<string>)
    ensures Visible(Concat(TrimEnd(line))) == Visible(Concat(line))
  {
    if line != [] && AllSpace(line[|line| - 1]) {
      var last := |line| - 1;
      ConcatAppend(line[..last], line[last]);
      assert line[..last] + [line[last]] == line;
      VisibleAppend(Concat(line[..last]), line[last]);
      VisibleAllSpace(line[last]);
    }
  }

  /** Dropping a whitespace chunk keeps the visible text. */
  lemma DropSpaceVisible(chunks: seq<string>, cs: seq<string>)
    requires cs == chunks || (chunks != [] && AllSpace(chunks[0]) && cs == chunks[1..])
    ensures Visible(Concat(cs)) == Visible(Concat(chunks))
  {
    if cs != chunks {
      assert chunks == [chunks[0]] + cs;
      ConcatCons(chunks[0], cs);
      VisibleAppend(chunks[0], Concat(cs));
      VisibleAllSpace(chunks[0]);
    }
  }

  /** A pass moves visible text from the chunks to the lines and loses none. */
  lemma MoveVisible(lines: seq<string>, init: string, sub: string, line: seq<string>, rest: seq<string>, t: string)
    requires Concat(line) + Concat(rest) == t
    ensures Visible(Bodies(Emitted(lines, if lines == [] then init else sub, TrimEnd(line)), init, sub))
      + Visible(Concat(rest)) == Visible(Bodies(lines, init, sub)) + Visible(t)
  {
    VisibleAppend(Concat(line), Concat(rest));
    TrimEndVisible(line);
    BodiesEmitted(lines, init, sub, TrimEnd(line));
    VisibleAppend(Bodies(lines, init, sub), Concat(TrimEnd(line)));
    Reassociate(Visible(Bodies(lines, init, sub)), Visible(Concat(line)), Visible(Concat(rest)));
  }

  lemma Reassociate(a: string, b: string, c: string)
    ensures (a + b) + c == a + (b + c)
  {
  }

  /** `_wrap_chunks` puts all the visible text of the chunks into the lines. */
  lemma {:induction false} WrapLinesVisible(chunks: seq<string>, lines: seq<string>, width: nat, init: string, sub: string)
    requires Halts(chunks, lines, width, init)
    ensures Visible(Bodies(WrapLines(chunks, lines, width, init, sub), init, sub))
      == Visible(Bodies(lines, init, sub)) + Visible(Concat(chunks))
    decreases Size(chunks), |chunks|
  {
    if chunks != [] {
      var (rest, lines') := Pass(chunks, lines, width, init, sub);
      WrapLinesVisible(rest, lines', width, init, sub);
    }
  }

  /** The chunks spell the text they were split from. */
  lemma {:induction false} ConcatChunks(s: string)
    ensures Concat(Chunks(s)) == s
    decreases |s|
  {
    if s != [] {
      var k := RunLen(s, s[0] == ' ');
      assert Chunks(s) == [s[..k]] + Chunks(s[k..]);
      ConcatChunks(s[k..]);
      ConcatCons(s[..k], Chunks(s[k..]));
      assert s[..k] + s[k..] == s;
    }
  }

  /** Expanding tabs only adds and removes whitespace. */
  lemma {:induction false} ExpandTabsVisible(s: string, col: nat)
    ensures Visible(ExpandTabs(s, col)) == Visible(s)
    decreases |s|
  {
    if s != [] {
      var n := 8 - col % 8;
      var next := if s[0] == '\t' then col + n else if s[0] == '\n' || s[0] == '\r' then 0 else col + 1;
      var head := if s[0] == '\t' then Spaces(n) else [s[0]];
      ExpandTabsVisible(s[1..], next);
      assert ExpandTabs(s, col) == head + ExpandTabs(s[1..], next);
      VisibleAppend(head, ExpandTabs(s[1..], next));
      if s[0] == '\t' {
        VisibleAllSpace(head);
      }
    }
  }

  /** Replacing whitespace by spaces keeps the visible text. */
  lemma {:induction false} BlankedVisible(e: string, m: string)
    requires |m| == |e| && forall i :: 0 <= i < |e| ==> m[i] == if IsWrapSpace(e[i]) then ' ' else e[i]
    ensures Visible(m) == Visible(e)
    decreases |e|
  {
    if e != [] {
      BlankedVisible(e[1..], m[1..]);
    }
  }

  lemma MungeVisible(text: string)
    ensures Visible(Munge(text)) == Visible(text)
  {
    ExpandTabsVisible(text, 0);
    BlankedVisible(ExpandTabs(text, 0), Munge(text));
  }

  /** `textwrap.wrap(text, width, initial_indent=init, subsequent_indent=sub)`:
      every line starts with its indent, when both indents leave at least
      one column of room no line is longer than `width` (long words are
      broken to fit), and the lines, their indents removed, hold the visible
      text in order: only whitespace is lost. */
  function Wrap(text: string, width: nat, init: string, sub: string): (r: seq<string>)
    requires width > 0
    requires Halts(Chunks(Munge(text)), [], width, init)
    ensures forall i :: 0 <= i < |r| ==> StartsWith(r[i], if i == 0 then init else sub)
    ensures |init| < width && |sub| < width ==> forall i :: 0 <= i < |r| ==> |r[i]| <= width
    ensures Visible(Bodies(r, init, sub)) == Visible(text)
    ensures text == [] ==> r == []
  {
    WrapLinesShaped(Chunks(Munge(text)), [], width, init, sub);
    WrapLinesVisible(Chunks(Munge(text)), [], width, init, sub);
    ConcatChunks(Munge(text));
    MungeVisible(text);
    WrapLines(Chunks(Munge(text)), [], width, init, sub)
  }

  /** Text that does not start with whitespace can always be wrapped. */
  lemma HaltsFrom(text: string, width: nat, init: string)
    requires text == [] || !IsSpace(text[0])
    ensures Halts(Chunks(Munge(text)), [], width, init)
  {
    if text != [] {
      var e := ExpandTabs(text, 0);
      assert e[0] == text[0];
      var m := Munge(text);
      assert m[0] == text[0];
      var c := Chunks(m)[0];
      assert c[0] == text[0];
    }
  }

  /** Any text can be wrapped behind a first indent that leaves no negative
      room. */
  lemma HaltsIndent(text: string, width: nat, init: string)
    requires |init| <= width
    ensures Halts(Chunks(Munge(text)), [], width, init)
  {
  }
}
