/**
 The handful of Python `str` operations the API-doc generator relies on:
 `isspace`, `strip`/`lstrip`/`rstrip`, `startswith`/`endswith`, `split` with a
 one-character separator and `splitlines`. Strings are sequences of Unicode
 code points, as in Python 3.
 */
module PyStr {

  /** Python's `str.isspace` for a single code point (the characters `strip`
      removes by default and the regex class `\s` matches). */
  predicate IsSpace(c: char) {
    ('\t' <= c <= '\r') || ('\U{1C}' <= c <= '\U{1F}') || c == ' '
    || c == '\U{85}' || c == '\U{A0}' || c == '\U{1680}'
    || ('\U{2000}' <= c <= '\U{200A}') || c == '\U{2028}' || c == '\U{2029}'
    || c == '\U{202F}' || c == '\U{205F}' || c == '\U{3000}'
  }

  predicate AllSpace(s: string) {
    forall i :: 0 <= i < |s| ==> IsSpace(s[i])
  }

  predicate StartsWith(s: string, p: string) {
    |p| <= |s| && s[..|p|] == p
  }

  /** Text appended behind a string keeps the string's prefixes. */
  lemma StartsWithAppend(s: string, t: string, p: string)
    requires StartsWith(s, p)
    ensures StartsWith(s + t, p)
  {
    assert (s + t)[..|p|] == s[..|p|];
  }

  predicate EndsWith(s: string, p: string) {
    |p| <= |s| && s[|s| - |p|..] == p
  }

  /** `s.lstrip()`: drops the leading run of whitespace. */
  function LStrip(s: string): (r: string)
    ensures |r| <= |s|
  {
    if s == [] || !IsSpace(s[0]) then s else LStrip(s[1..])
  }

  /** What `lstrip` keeps is a suffix that does not start with whitespace,
      and what it drops is all whitespace. */
  lemma {:induction false} LStripSpec(s: string)
    ensures var r := LStrip(s);
      r == s[|s| - |r|..] && AllSpace(s[..|s| - |r|]) && (r == [] || !IsSpace(r[0]))
  {
    if s != [] && IsSpace(s[0]) {
      var r := LStrip(s[1..]);
      LStripSpec(s[1..]);
      assert s[..|s| - |r|] == [s[0]] + s[1..][..|s| - 1 - |r|];
      DropOfDrop(s, 1, |s| - 1 - |r|);
    } else {
      assert s[..0] == [];
    }
  }

  /** `s.rstrip()`: drops the trailing run of whitespace. */
  function RStrip(s: string): (r: string)
    ensures |r| <= |s|
  {
    if s == [] || !IsSpace(s[|s| - 1]) then s else RStrip(s[..|s| - 1])
  }

  /** What `rstrip` keeps is a prefix that does not end in whitespace, and
      what it drops is all whitespace. */
  lemma {:induction false} RStripSpec(s: string)
    ensures var r := RStrip(s);
      r == s[..|r|] && AllSpace(s[|r|..]) && (r == [] || !IsSpace(r[|r| - 1]))
  {
    if s != [] && IsSpace(s[|s| - 1]) {
      var r := RStrip(s[..|s| - 1]);
      RStripSpec(s[..|s| - 1]);
      assert s[|r|..] == s[..|s| - 1][|r|..] + [s[|s| - 1]];
      assert s[..|s| - 1][..|r|] == s[..|r|];
    } else {
      assert s[|s|..] == [];
    }
  }

  /** `s.strip()`: both ends lose their whitespace. */
  function Strip(s: string): (r: string)
    ensures |r| <= |s|
  {
    RStrip(LStrip(s))
  }

  /** What `strip` keeps is a slice of the input with only whitespace
      around it, and it neither starts nor ends with whitespace. */
  lemma StripSlice(s: string)
    ensures var i, r := |s| - |LStrip(s)|, Strip(s);
      i + |r| <= |s| && r == s[i..i + |r|] && AllSpace(s[..i]) && AllSpace(s[i + |r|..])
      && (r == [] || (!IsSpace(r[0]) && !IsSpace(r[|r| - 1])))
  {
    LStripSpec(s);
    RStripSpec(LStrip(s));
    SliceAround(s, LStrip(s), Strip(s));
  }

  /** A prefix `r` of a suffix `l` of `s`, with only whitespace cut off
      around them, is a slice of `s` with only whitespace around it. */
  lemma SliceAround(s: string, l: string, r: string)
    requires |l| <= |s| && l == s[|s| - |l|..] && AllSpace(s[..|s| - |l|]) && (l == [] || !IsSpace(l[0]))
    requires |r| <= |l| && r == l[..|r|] && AllSpace(l[|r|..]) && (r == [] || !IsSpace(r[|r| - 1]))
    ensures var i := |s| - |l|;
      i + |r| <= |s| && r == s[i..i + |r|] && AllSpace(s[..i]) && AllSpace(s[i + |r|..])
      && (r == [] || (!IsSpace(r[0]) && !IsSpace(r[|r| - 1])))
  {
    var i := |s| - |l|;
    SliceOfSlice(s, i, |r|);
    DropOfDrop(s, i, |r|);
    assert r == [] || r[0] == l[0];
  }

  lemma SliceOfSlice(s: string, i: nat, n: nat)
    requires i + n <= |s|
    ensures s[i..][..n] == s[i..i + n]
  {}

  lemma TakeDrop(s: string, n: nat)
    requires n <= |s|
    ensures s[..n] + s[n..] == s
  {}

  lemma DropOfDrop(s: string, i: nat, j: nat)
    requires i + j <= |s|
    ensures s[i..][j..] == s[i + j..]
  {}

  /** Index of the first occurrence of `c` in `s`, or `|s|` when there is none. */
  function Find(s: string, c: char): (r: nat)
    ensures r <= |s|
    ensures c !in s[..r]
    ensures r < |s| ==> s[r] == c
  {
    if s == [] then 0
    else if s[0] == c then 0
    else
      var r := 1 + Find(s[1..], c);
      assert s[..r] == [s[0]] + s[1..][..r - 1];
      r
  }

  /** The first occurrence is the only one in front of it. */
  lemma FindAt(s: string, c: char, k: nat)
    requires k < |s| && s[k] == c && c !in s[..k]
    ensures Find(s, c) == k
  {
  }

  datatype Option<T> = None | Some(value: T)

  /** `s.split(c, 1)` unpacked into exactly two names: `None` stands for the
      `ValueError` Python raises when `c` does not occur in `s`. */
  function SplitOnce(s: string, c: char): (r: Option<(string, string)>)
    ensures r.None? <==> c !in s
    ensures r.Some? ==> s == r.value.0 + [c] + r.value.1 && c !in r.value.0
  {
    var k := Find(s, c);
    if k == |s| then
      assert s[..k] == s;
      None
    else
      assert s == s[..k] + [c] + s[k + 1..];
      Some((s[..k], s[k + 1..]))
  }

  /** `s.split(c)[i]`, for an index that exists. */
  function Field(s: string, c: char, i: nat): (r: Option<string>)
    ensures i == 0 ==> r == Some(s[..Find(s, c)])
  {
    var k := Find(s, c);
    if i == 0 then Some(s[..k])
    else if k == |s| then None
    else Field(s[k + 1..], c, i - 1)
  }

  /** The line boundaries of `str.splitlines`. */
  predicate IsLineBreak(c: char) {
    ('\n' <= c <= '\r') || ('\U{1C}' <= c <= '\U{1E}') || c == '\U{85}'
    || c == '\U{2028}' || c == '\U{2029}'
  }

  predicate NoLineBreak(s: string) {
    forall i :: 0 <= i < |s| ==> !IsLineBreak(s[i])
  }

  /** Index of the first line boundary in `s`, or `|s|`. */
  function FindBreak(s: string): (r: nat)
    ensures r <= |s|
    ensures NoLineBreak(s[..r])
    ensures r < |s| ==> IsLineBreak(s[r])
  {
    if s == [] || IsLineBreak(s[0]) then 0
    else
      var r := 1 + FindBreak(s[1..]);
      assert s[..r] == [s[0]] + s[1..][..r - 1];
      r
  }

  /** `s.splitlines()`: the lines without their boundaries; `\r\n` is one
      boundary, and a boundary at the very end opens no further line. */
  function SplitLines(s: string): (r: seq<string>)
    ensures forall i :: 0 <= i < |r| ==> NoLineBreak(r[i])
    ensures s == [] <==> r == []
    decreases |s|
  {
    if s == [] then []
    else
      var k := FindBreak(s);
      if k == |s| then [s]
      else
        var next := if s[k] == '\r' && k + 1 < |s| && s[k + 1] == '\n' then k + 2 else k + 1;
        [s[..k]] + SplitLines(s[next..])
  }

  /** `sep.join(parts)` */
  function Join(parts: seq<string>, sep: string): string {
    if parts == [] then []
    else if |parts| == 1 then parts[0]
    else parts[0] + sep + Join(parts[1..], sep)
  }

  /** `splitlines` undoes a join with `"\n"` of lines that hold no boundary,
      as long as the last line is not empty (a final empty line leaves no trace). */
  lemma {:induction false} SplitLinesOfJoin(lines: seq<string>)
    requires forall i :: 0 <= i < |lines| ==> NoLineBreak(lines[i])
    requires lines != [] ==> lines[|lines| - 1] != []
    ensures SplitLines(Join(lines, "\n")) == lines
  {
    if |lines| == 1 {
      assert FindBreak(lines[0]) == |lines[0]|;
    } else if |lines| > 1 {
      var l, tail := lines[0], Join(lines[1..], "\n");
      assert Join(lines, "\n") == l + "\n" + tail;
      SplitLinesCons(l, tail);
      assert forall i :: 0 <= i < |lines[1..]| ==> lines[1..][i] == lines[i + 1];
      SplitLinesOfJoin(lines[1..]);
      assert [l] + lines[1..] == lines;
    }
  }

  /** A line that holds no boundary, then `\n`, split off the rest. */
  lemma SplitLinesCons(l: string, tail: string)
    requires NoLineBreak(l)
    ensures SplitLines(l + "\n" + tail) == [l] + SplitLines(tail)
  {
    var s := l + "\n" + tail;
    FindBreakOf(l, "\n" + tail);
    assert s == l + ("\n" + tail);
    assert s[|l|] == '\n' && s[..|l|] == l && s[|l| + 1..] == tail;
  }

  lemma FindBreakOf(l: string, rest: string)
    requires NoLineBreak(l)
    requires rest != [] && IsLineBreak(rest[0])
    ensures FindBreak(l + rest) == |l|
  {
    assert (l + rest)[..|l|] == l;
    assert (l + rest)[|l|] == rest[0];
  }
}
