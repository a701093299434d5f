/**
 The conversion step of the API-documentation generator: one documentation
 comment of a C header and the declaration after it become a name, a one-line
 brief, description paragraphs, an ordered list of parameters and a return
 value, rendered as a Markdown section.
 */
module DocGen {
  import opened PyStr
  import TextWrap

  /** The ways a comment block stops the generator: the two assertions on the
      comment frame and the two unpackings of `split("\n", 1)`. */
  datatype Error = NoOpening | NoClosing | NoName | NoBrief

  datatype Result<T> = Ok(value: T) | Err(error: Error)

  // ---------------------------------------------------------------------
  // Removing the comment frame

  // The strip, the opening assertion, the left strip after `/**`, the
  // closing assertion and the cut before `*/`: on success the value is what
  // follows `/**` and its whitespace, up to the final `*/`.
  function Unframe(text: string): (r: Result<string>)
    ensures r == Err(NoOpening) <==> !StartsWith(Strip(text), "/**")
    ensures r.Err? ==> r == Err(NoOpening) || r == Err(NoClosing)
    ensures r.Ok? ==> var t := Strip(text);
      StartsWith(t, "/**") && EndsWith(t, r.value + "*/") && LStrip(t[3..]) == r.value + "*/"
  {
    var t := Strip(text);
    if !StartsWith(t, "/**") then Err(NoOpening)
    else
      var u := LStrip(t[3..]);
      if !EndsWith(u, "*/") then Err(NoClosing)
      else
        var v := u[..|u| - 2];
        LStripSpec(t[3..]);
        TakeDrop(u, |u| - 2);
        DropOfDrop(t, 3, |t| - 3 - |u|);
        Ok(v)
  }

  // ---------------------------------------------------------------------
  // Removing the decoration at the start of each line

  /** Length of the leading run of whitespace. */
  function SpaceRun(s: string): (n: nat)
    ensures n <= |s| && AllSpace(s[..n]) && (n < |s| ==> !IsSpace(s[n]))
  {
    if s == [] || !IsSpace(s[0]) then 0
    else
      var n := 1 + SpaceRun(s[1..]);
      assert s[..n] == [s[0]] + s[1..][..n - 1];
      n
  }

  /** How many of the first two characters are spaces or tabs, stopping at
      the first that is neither. */
  function GapRun(s: string): (n: nat)
    ensures n <= 2 && n <= |s|
    ensures forall i :: 0 <= i < n ==> s[i] == ' ' || s[i] == '\t'
    ensures n < 2 && n < |s| ==> s[n] != ' ' && s[n] != '\t'
  {
    if s != [] && (s[0] == ' ' || s[0] == '\t') then
      if |s| > 1 && (s[1] == ' ' || s[1] == '\t') then 2 else 1
    else 0
  }

  /** Length of the decoration that starts a line: whitespace (possibly
      running over blank lines), one `*`, then at most two spaces or tabs;
      0 when the line is not decorated. */
  function DecorLen(s: string): (n: nat)
    ensures n <= |s|
    ensures n > 0 ==> SpaceRun(s) < |s| && s[SpaceRun(s)] == '*' && n == SpaceRun(s) + 1 + GapRun(s[SpaceRun(s) + 1..])
    ensures SpaceRun(s) < |s| && s[SpaceRun(s)] == '*' ==> n > 0
  {
    var k := SpaceRun(s);
    if k < |s| && s[k] == '*' then k + 1 + GapRun(s[k + 1..]) else 0
  }

  /** The multi-line substitution that deletes every line decoration; `bol`
      says whether `s` starts at the beginning of a line. */
  function Undecorate(s: string, bol: bool): string
    decreases |s|
  {
    if s == [] then []
    else if bol && DecorLen(s) > 0 then Undecorate(s[DecorLen(s)..], false)
    else [s[0]] + Undecorate(s[1..], s[0] == '\n')
  }

  /** A comment body with each line behind a ` * ` frame. */
  function Framed(lines: seq<string>): string {
    if lines == [] then []
    else if |lines| == 1 then " * " + lines[0]
    else " * " + lines[0] + "\n" + Framed(lines[1..])
  }

  /** A line of text that the frame can hold unchanged: no line break, and no
      space or tab at its start that the decoration would swallow. */
  predicate Frameable(l: string) {
    '\n' !in l && (l == [] || (l[0] != ' ' && l[0] != '\t'))
  }

  /** Removing the decoration from framed lines gives the lines back. */
  lemma {:induction false} UndecorateFramed(lines: seq<string>)
    requires forall i :: 0 <= i < |lines| ==> Frameable(lines[i])
    ensures Undecorate(Framed(lines), true) == Join(lines, "\n")
  {
    if |lines| == 1 {
      FramedLine(lines[0], []);
      assert Undecorate(" * " + lines[0], true) == lines[0] by {
        assert " * " + lines[0] == " * " + lines[0] + [];
      }
    } else if |lines| > 1 {
      UndecorateFramed(lines[1..]);
      FramedCons(lines);
      assert Join(lines, "\n") == lines[0] + ("\n" + Join(lines[1..], "\n"));
    }
  }

  lemma FramedCons(lines: seq<string>)
    requires |lines| > 1 && Frameable(lines[0])
    ensures Undecorate(Framed(lines), true) == lines[0] + ("\n" + Undecorate(Framed(lines[1..]), true))
  {
    var rest := Framed(lines[1..]);
    assert Framed(lines) == " * " + lines[0] + ("\n" + rest);
    FramedLine(lines[0], "\n" + rest);
    NewlineStartsLine(rest);
  }

  /** A framed line comes back without its frame, whatever follows it. */
  lemma FramedLine(l: string, rest: string)
    requires Frameable(l) && '\n' !in l
    requires l == [] ==> rest == [] || rest[0] == '\n'
    ensures Undecorate(" * " + l + rest, true) == l + Undecorate(rest, false)
  {
    assert " * " + l + rest == " * " + (l + rest);
    StripFrame(l + rest);
    CopyLine(l, rest);
  }

  lemma NewlineStartsLine(rest: string)
    ensures Undecorate("\n" + rest, false) == "\n" + Undecorate(rest, true)
  {
    assert ("\n" + rest)[1..] == rest;
  }

  lemma StripFrame(x: string)
    requires x == [] || (x[0] != ' ' && x[0] != '\t')
    ensures Undecorate(" * " + x, true) == Undecorate(x, false)
  {
    var s := " * " + x;
    assert SpaceRun(s) == 1 by {
      assert s[..1] == " ";
    }
    assert s[2..] == " " + x;
    assert DecorLen(s) == 3;
    assert s[3..] == x;
  }

  lemma {:induction false} CopyLine(l: string, rest: string)
    requires '\n' !in l
    ensures Undecorate(l + rest, false) == l + Undecorate(rest, false)
  {
    if l != [] {
      var s := l + rest;
      assert s[0] == l[0] && s[0] != '\n';
      assert s[1..] == l[1..] + rest;
      assert '\n' !in l[1..] by {
        assert forall i :: 0 <= i < |l| - 1 ==> l[1..][i] == l[i + 1];
      }
      CopyLine(l[1..], rest);
      assert Undecorate(s, false) == [l[0]] + Undecorate(s[1..], false);
      assert l + Undecorate(rest, false) == [l[0]] + (l[1..] + Undecorate(rest, false));
    } else {
      assert l + rest == rest;
    }
  }

  // ---------------------------------------------------------------------
  // Reflowing

  /** Every newline that is not followed by `[` or by another newline
      becomes a space; nothing else changes. */
  function Reflow(s: string): (r: string)
    ensures |r| == |s|
    ensures forall i :: 0 <= i < |s| && s[i] != '\n' ==> r[i] == s[i]
    ensures forall i :: 0 <= i < |s| && s[i] == '\n' ==> r[i] == '\n' || r[i] == ' '
    ensures forall i :: 0 <= i < |s| ==>
      (r[i] == '\n' <==> s[i] == '\n' && i + 1 < |s| && (s[i + 1] == '[' || s[i + 1] == '\n'))
  {
    seq(|s|, i requires 0 <= i < |s| =>
      if s[i] == '\n' && !(i + 1 < |s| && (s[i + 1] == '[' || s[i + 1] == '\n')) then ' ' else s[i])
  }

  /** `s` with every space removed. */
  function NoSpaces(s: string): string {
    if s == [] then [] else (if s[0] == ' ' then [] else [s[0]]) + NoSpaces(s[1..])
  }

  predicate NoDoubleSpace(s: string) {
    forall i :: 0 <= i < |s| - 1 ==> !(s[i] == ' ' && s[i + 1] == ' ')
  }

  /** Length of the leading run of spaces. */
  function SpacesAt(s: string): (n: nat)
    ensures 0 < n <= |s| || (n == 0 && (s == [] || s[0] != ' '))
    ensures forall i :: 0 <= i < n ==> s[i] == ' '
    ensures n < |s| ==> s[n] != ' '
  {
    if s == [] || s[0] != ' ' then 0 else 1 + SpacesAt(s[1..])
  }

  lemma {:induction false} NoSpacesOfSpaces(s: string, n: nat)
    requires n <= |s| && forall i :: 0 <= i < n ==> s[i] == ' '
    ensures NoSpaces(s) == NoSpaces(s[n..])
  {
    if n > 0 {
      assert s[1..][n - 1..] == s[n..];
      NoSpacesOfSpaces(s[1..], n - 1);
    }
  }

  /** Every run of spaces becomes one space: afterwards no two spaces are
      adjacent, and only spaces were removed. */
  function CollapseSpaces(s: string): (r: string)
    ensures NoDoubleSpace(r)
    ensures NoSpaces(r) == NoSpaces(s)
    ensures (r == []) == (s == []) && (s != [] ==> r[0] == s[0])
    decreases |s|
  {
    if s == [] then []
    else if s[0] == ' ' then
      var n := SpacesAt(s);
      var t := CollapseSpaces(s[n..]);
      NoSpacesOfSpaces(s, n);
      assert NoSpaces(" " + t) == NoSpaces(t);
      " " + t
    else
      var t := CollapseSpaces(s[1..]);
      assert ([s[0]] + t)[1..] == t;
      [s[0]] + t
  }

  /** The spaces at the start of every line are removed (`bol`: `s` starts
      a line): afterwards no line starts with a space, only spaces were
      removed, and no two spaces become adjacent. */
  function StripIndent(s: string, bol: bool): (r: string)
    ensures forall i :: 0 <= i < |r| && r[i] == ' ' ==> (if i == 0 then !bol else r[i - 1] != '\n')
    ensures NoSpaces(r) == NoSpaces(s)
    ensures NoDoubleSpace(s) ==> NoDoubleSpace(r)
    ensures r != [] ==> s != [] && (r[0] == s[0] || (s[0] == ' ' && r[0] != ' '))
    decreases |s|
  {
    if s == [] then []
    else if bol && s[0] == ' ' then
      var n := SpacesAt(s);
      NoSpacesOfSpaces(s, n);
      var t := StripIndent(s[n..], false);
      var u := s[n..];
      assert forall i :: 0 <= i < |u| ==> u[i] == s[n + i];
      t
    else
      var t := StripIndent(s[1..], s[0] == '\n');
      var r := [s[0]] + t;
      assert r[1..] == t;
      assert NoSpaces(r) == (if s[0] == ' ' then [] else [s[0]]) + NoSpaces(t);
      var u := s[1..];
      assert forall i :: 0 <= i < |u| ==> u[i] == s[1 + i];
      r
  }

  /** Character by character: a space that directly follows a space is
      dropped (`afterSpace`: the character before `s` was a space), every
      other character is kept. */
  function Squeezed(s: string, afterSpace: bool): string
    decreases |s|
  {
    if s == [] then []
    else if s[0] == ' ' && afterSpace then Squeezed(s[1..], true)
    else [s[0]] + Squeezed(s[1..], s[0] == ' ')
  }

  /** Collapsing the runs of spaces keeps the first space of each run and
      nothing else of it. */
  lemma {:induction false} CollapseSpacesSqueezes(s: string)
    ensures CollapseSpaces(s) == Squeezed(s, false)
    decreases |s|
  {
    if s != [] {
      if s[0] == ' ' {
        var n := SpacesAt(s);
        CollapseSpacesSqueezes(s[n..]);
        assert s[1..][n - 1..] == s[n..];
        SqueezedRun(s[1..], n - 1);
        assert CollapseSpaces(s) == " " + CollapseSpaces(s[n..]);
        assert Squeezed(s, false) == [' '] + Squeezed(s[1..], true);
      } else {
        CollapseSpacesSqueezes(s[1..]);
        assert CollapseSpaces(s) == [s[0]] + CollapseSpaces(s[1..]);
      }
    }
  }

  /** After a space, a further run of spaces vanishes. */
  lemma {:induction false} SqueezedRun(s: string, m: nat)
    requires m <= |s| && forall i :: 0 <= i < m ==> s[i] == ' '
    requires m == |s| || s[m] != ' '
    ensures Squeezed(s, true) == Squeezed(s[m..], false)
    decreases m
  {
    if m > 0 {
      assert s[1..][m - 1..] == s[m..];
      SqueezedRun(s[1..], m - 1);
    }
  }

  /** Character by character: a space is dropped when only spaces lie
      between it and the start of its line (`bol`: that holds before `s`),
      every other character is kept. */
  function Dedented(s: string, bol: bool): string
    decreases |s|
  {
    if s == [] then []
    else if s[0] == ' ' && bol then Dedented(s[1..], true)
    else [s[0]] + Dedented(s[1..], s[0] == '\n')
  }

  /** Stripping the indents removes the leading spaces of each line and no
      other character. */
  lemma {:induction false} StripIndentDedents(s: string, bol: bool)
    ensures StripIndent(s, bol) == Dedented(s, bol)
    decreases |s|
  {
    if s != [] {
      if bol && s[0] == ' ' {
        var n := SpacesAt(s);
        StripIndentDedents(s[n..], false);
        DedentedRun(s, n);
      } else {
        StripIndentDedents(s[1..], s[0] == '\n');
      }
    }
  }

  /** At the start of a line, a run of spaces vanishes. */
  lemma {:induction false} DedentedRun(s: string, m: nat)
    requires m <= |s| && forall i :: 0 <= i < m ==> s[i] == ' '
    requires m == |s| || s[m] != ' '
    ensures Dedented(s, true) == Dedented(s[m..], false)
    decreases m
  {
    if m > 0 {
      assert s[1..][m - 1..] == s[m..];
      DedentedRun(s[1..], m - 1);
    }
  }

  /** The whole normalisation: decoration, reflow, space collapsing and
      line-start stripping, in that order. */
  function Normalise(text: string): (r: string)
    ensures NoDoubleSpace(r)
    ensures forall i :: 0 <= i < |r| && r[i] == ' ' ==> i > 0 && r[i - 1] != '\n'
  {
    StripIndent(CollapseSpaces(Reflow(Undecorate(text, true))), true)
  }

  // ---------------------------------------------------------------------
  // Tags

  /** A line counts as a tag line when it starts with `[` and holds a `]`. */
  predicate IsTag(line: string) {
    StartsWith(line, "[") && ']' in line
  }

  /** The stripped tag name and the stripped text after its `]`: the line
      without its `[` is split once at `]`. */
  function TagOf(line: string): (string, string)
    requires IsTag(line)
  {
    assert line == [line[0]] + line[1..];
    var p := SplitOnce(line[1..], ']').value;
    (Strip(p.0), Strip(p.1))
  }

  /** The tag is what lies between the `[` and the first `]`; the text is
      everything after that `]`. */
  lemma TagOfSpec(line: string)
    requires IsTag(line)
    ensures var k := Find(line, ']');
      0 < k < |line| && TagOf(line) == (Strip(line[1..k]), Strip(line[k + 1..]))
  {
    var k := Find(line, ']');
    assert line[..1] == "[";
    assert line[0] != ']';
    var u := line[1..];
    SliceOfSlice(line, 1, k - 1);
    assert u[..k - 1] == line[1..k];
    assert forall j :: 0 <= j < k - 1 ==> u[j] == line[..k][j + 1];
    FindAt(u, ']', k - 1);
    DropOfDrop(line, 1, k);
  }

  /** The parameter name of a `Parameter:` tag: the second field of the tag
      split at every colon, stripped. */
  function ParamName(tag: string): string
    requires StartsWith(tag, "Parameter:")
  {
    assert tag[9] == ':';
    Strip(Field(tag, ':', 1).value)
  }

  /** That field is the text between the colon of `Parameter:` and the next
      colon, or the end of the tag. */
  lemma ParamNameSpec(tag: string)
    requires StartsWith(tag, "Parameter:")
    ensures var rest := tag[10..]; ParamName(tag) == Strip(rest[..Find(rest, ':')])
  {
    assert tag[..9] == "Parameter" && tag[9] == ':';
    FindAt(tag, ':', 9);
  }

  /** What one line adds to the description, the parameters and the return
      value. */
  function LineDesc(line: string): string {
    if IsTag(line) then [] else line + "\n"
  }

  function LineParams(line: string): (r: seq<(string, string)>)
    ensures |r| <= 1
  {
    if IsTag(line) && StartsWith(TagOf(line).0, "Parameter:") then
      [(ParamName(TagOf(line).0), TagOf(line).1)]
    else []
  }

  function LineRetval(line: string): Option<string> {
    if IsTag(line) && !StartsWith(TagOf(line).0, "Parameter:") && TagOf(line).0 == "Return value" then
      Some(TagOf(line).1)
    else None
  }

  /** The description: every line that is not a tag line, each followed by a
      newline. */
  function DescOf(lines: seq<string>): string {
    if lines == [] then [] else LineDesc(lines[0]) + DescOf(lines[1..])
  }

  /** The parameters, one per `Parameter:` tag line, in order. */
  function ParamsOf(lines: seq<string>): seq<(string, string)> {
    if lines == [] then [] else LineParams(lines[0]) + ParamsOf(lines[1..])
  }

  /** The return value: the text of the last `Return value` tag line. */
  function RetvalOf(lines: seq<string>): Option<string> {
    if lines == [] then None
    else
      var later := RetvalOf(lines[1..]);
      if later.Some? then later else LineRetval(lines[0])
  }

  lemma {:induction false} DescOfAppend(a: seq<string>, b: seq<string>)
    ensures DescOf(a + b) == DescOf(a) + DescOf(b)
  {
    if a != [] {
      assert (a + b)[1..] == a[1..] + b;
      DescOfAppend(a[1..], b);
    } else {
      assert a + b == b;
    }
  }

  /** Parameters keep their order and their duplicates across any split. */
  lemma {:induction false} ParamsOfAppend(a: seq<string>, b: seq<string>)
    ensures ParamsOf(a + b) == ParamsOf(a) + ParamsOf(b)
  {
    if a != [] {
      assert (a + b)[1..] == a[1..] + b;
      ParamsOfAppend(a[1..], b);
    } else {
      assert a + b == b;
    }
  }

  /** The last `Return value` tag wins. */
  lemma {:induction false} RetvalOfAppend(a: seq<string>, b: seq<string>)
    ensures RetvalOf(a + b) == if RetvalOf(b).Some? then RetvalOf(b) else RetvalOf(a)
  {
    if a != [] {
      assert (a + b)[1..] == a[1..] + b;
      RetvalOfAppend(a[1..], b);
    } else {
      assert a + b == b;
    }
  }

  lemma DescOfSnoc(prefix: seq<string>, line: string)
    ensures DescOf(prefix + [line]) == DescOf(prefix) + LineDesc(line)
  {
    assert [line][1..] == [];
    assert DescOf([line]) == LineDesc(line) + DescOf([]);
    DescOfAppend(prefix, [line]);
  }

  lemma ParamsOfSnoc(prefix: seq<string>, line: string)
    ensures ParamsOf(prefix + [line]) == ParamsOf(prefix) + LineParams(line)
  {
    assert [line][1..] == [];
    assert ParamsOf([line]) == LineParams(line) + ParamsOf([]);
    ParamsOfAppend(prefix, [line]);
  }

  lemma RetvalOfSnoc(prefix: seq<string>, line: string)
    ensures RetvalOf(prefix + [line]) == if LineRetval(line).Some? then LineRetval(line) else RetvalOf(prefix)
  {
    assert [line][1..] == [];
    assert RetvalOf([line]) == LineRetval(line);
    RetvalOfAppend(prefix, [line]);
  }

  /** A tag line that is neither a parameter nor the return value leaves no
      trace. */
  lemma OtherTagDropped(line: string)
    requires IsTag(line) && !StartsWith(TagOf(line).0, "Parameter:") && TagOf(line).0 != "Return value"
    ensures DescOf([line]) == [] && ParamsOf([line]) == [] && RetvalOf([line]) == None
  {
    assert [line][1..] == [];
  }

  /** What the line at `i` adds to the description, the parameters and the
      return value gathered from the lines before it. */
  lemma LineStep(lines: seq<string>, i: nat)
    requires i < |lines|
    ensures DescOf(lines[..i + 1]) == DescOf(lines[..i]) + LineDesc(lines[i])
    ensures ParamsOf(lines[..i + 1]) == ParamsOf(lines[..i]) + LineParams(lines[i])
    ensures RetvalOf(lines[..i + 1]) == if LineRetval(lines[i]).Some? then LineRetval(lines[i]) else RetvalOf(lines[..i])
  {
    assert lines[..i + 1] == lines[..i] + [lines[i]];
    DescOfSnoc(lines[..i], lines[i]);
    ParamsOfSnoc(lines[..i], lines[i]);
    RetvalOfSnoc(lines[..i], lines[i]);
  }

  /** The tag loop: walks the lines once, appending to the description,
      appending parameters and overwriting the return value; the description
      then loses its trailing whitespace. */
  method ParseTags(text: string) returns (desc: string, params: seq<(string, string)>, retval: Option<string>)
    ensures desc == RStrip(DescOf(SplitLines(text)))
    ensures params == ParamsOf(SplitLines(text))
    ensures retval == RetvalOf(SplitLines(text))
  {
    desc, params, retval := GatherTags(SplitLines(text));
    desc := RStrip(desc);
  }

  /** The loop over the lines, before the description is stripped. */
  method GatherTags(lines: seq<string>) returns (desc: string, params: seq<(string, string)>, retval: Option<string>)
    ensures desc == DescOf(lines)
    ensures params == ParamsOf(lines)
    ensures retval == RetvalOf(lines)
  {
    desc, params, retval := [], [], None;
    var i := 0;
    while i < |lines|
      invariant 0 <= i <= |lines|
      invariant desc == DescOf(lines[..i])
      invariant params == ParamsOf(lines[..i])
      invariant retval == RetvalOf(lines[..i])
    {
      var line := lines[i];
      LineStep(lines, i);
      if IsTag(line) {
        var (tag, rest) := TagOf(line);
        assert LineDesc(line) == [];
        assert desc + [] == desc;
        if StartsWith(tag, "Parameter:") {
          params := params + [(ParamName(tag), rest)];
        } else {
          assert params + [] == params;
          if tag == "Return value" {
            retval := Some(rest);
          }
        }
      } else {
        assert LineParams(line) == [] && LineRetval(line) == None;
        assert params + [] == params;
        desc := desc + (line + "\n");
      }
      i := i + 1;
    }
    assert lines[..i] == lines;
  }

  // ---------------------------------------------------------------------
  // Name and brief

  /** The normalised comment cut at its first two newlines. */
  datatype Parts = Parts(name: string, brief: string, body: string)

  /** The two unpackings of `split("\n", 1)`: the first gives the name, the
      second the brief; either fails when there is no newline left. */
  function SplitNameBrief(text: string): (r: Result<Parts>)
    ensures r == Err(NoName) <==> '\n' !in text
    ensures r.Err? ==> r == Err(NoName) || r == Err(NoBrief)
    ensures r.Ok? ==> text == r.value.name + "\n" + r.value.brief + "\n" + r.value.body
    ensures r.Ok? ==> '\n' !in r.value.name && '\n' !in r.value.brief
  {
    match SplitOnce(text, '\n')
    case None => Err(NoName)
    case Some((name, rest)) =>
      assert '\n' in text by {
        assert text[|name|] == '\n';
      }
      match SplitOnce(rest, '\n')
      case None => Err(NoBrief)
      case Some((brief, body)) =>
        LinesThree(text, name, rest, brief, body);
        Ok(Parts(name, brief, body))
  }

  lemma LinesThree(text: string, name: string, rest: string, brief: string, body: string)
    requires text == name + "\n" + rest && rest == brief + "\n" + body
    ensures text == name + "\n" + brief + "\n" + body
  {
    assert name + "\n" + (brief + "\n" + body) == name + "\n" + brief + "\n" + body;
  }

  /** Conversely, a name line and a brief line in front of any body are
      recovered exactly. */
  lemma SplitNameBriefOf(name: string, brief: string, body: string)
    requires '\n' !in name && '\n' !in brief
    ensures SplitNameBrief(name + "\n" + brief + "\n" + body) == Ok(Parts(name, brief, body))
  {
    var text := name + "\n" + brief + "\n" + body;
    var rest := brief + "\n" + body;
    assert text == name + "\n" + rest;
    SplitOnceAt(name, rest);
    SplitOnceAt(brief, body);
  }

  lemma SplitOnceAt(a: string, b: string)
    requires '\n' !in a
    ensures SplitOnce(a + "\n" + b, '\n') == Some((a, b))
  {
    var s := a + "\n" + b;
    assert s[..|a|] == a && s[|a|] == '\n';
    FindAt(s, '\n', |a|);
    assert s[|a| + 1..] == b;
  }

  // ---------------------------------------------------------------------
  // Rendering

  const Width := 79

  /** `print(s)`: the text followed by a newline. */
  function Print(s: string): string {
    s + "\n"
  }

  /** `print("\n".join(textwrap.wrap(text, 79, ...)))` */
  function PrintWrapped(text: string, init: string, sub: string): string
    requires TextWrap.Halts(TextWrap.Chunks(TextWrap.Munge(text)), [], Width, init)
  {
    Print(Join(TextWrap.Wrap(text, Width, init, sub), "\n"))
  }

  /** Each description line is its own wrapped paragraph, followed by an
      empty line. */
  function Paragraphs(lines: seq<string>): string {
    if lines == [] then []
    else
      TextWrap.HaltsIndent(lines[0], Width, "");
      PrintWrapped(lines[0], "", "") + Print("") + Paragraphs(lines[1..])
  }

  function Bullet(name: string): string {
    "* **Parameter** `" + name + "`: "
  }

  const ReturnBullet := "* **Return value**: "

  /** Text that does not start with whitespace, as every stripped text. */
  predicate Clean(s: string) {
    s == [] || !IsSpace(s[0])
  }

  /** One bullet per parameter, in order, its text wrapped behind the bullet
      and continued with a two-space indent. */
  function Bullets(params: seq<(string, string)>): string
    requires AllClean(params)
  {
    if params == [] then []
    else
      assert Clean(params[0].1);
      TextWrap.HaltsFrom(params[0].1, Width, Bullet(params[0].0));
      PrintWrapped(params[0].1, Bullet(params[0].0), "  ") + Bullets(params[1..])
  }

  /** The return bullet, only for a return text that is not empty. */
  function ReturnPart(retval: Option<string>): string {
    if retval.Some? && retval.value != [] then
      TextWrap.HaltsIndent(retval.value, Width, ReturnBullet);
      PrintWrapped(retval.value, ReturnBullet, "  ")
    else []
  }

  /** The Markdown section of one comment: heading, brief, fenced signature,
      paragraphs, parameter bullets, return bullet and a closing empty line. */
  function Section(name: string, brief: string, signature: string, desc: string,
                   params: seq<(string, string)>, retval: Option<string>): string
    requires AllClean(params)
  {
    TextWrap.HaltsIndent(brief, Width, "");
    Print("## " + name) + PrintWrapped(brief, "", "") + Print("")
    + Print("```c\n" + signature + "\n```") + Print("")
    + Paragraphs(SplitLines(desc)) + Bullets(params) + ReturnPart(retval) + Print("")
  }

  predicate AllClean(params: seq<(string, string)>) {
    forall i :: 0 <= i < |params| ==> Clean(params[i].1)
  }

  lemma StripClean(s: string)
    ensures Clean(Strip(s))
  {
    StripSlice(s);
  }

  lemma LineParamsClean(line: string)
    ensures AllClean(LineParams(line))
  {
    if IsTag(line) && StartsWith(TagOf(line).0, "Parameter:") {
      assert line == [line[0]] + line[1..];
      StripClean(SplitOnce(line[1..], ']').value.1);
    }
  }

  lemma AllCleanAppend(ps: seq<(string, string)>, qs: seq<(string, string)>)
    requires AllClean(ps) && AllClean(qs)
    ensures AllClean(ps + qs)
  {
    assert forall i :: 0 <= i < |qs| ==> (ps + qs)[|ps| + i] == qs[i];
  }

  /** Every parameter text is stripped, so it never starts with whitespace. */
  lemma {:induction false} ParamsClean(lines: seq<string>)
    ensures AllClean(ParamsOf(lines))
  {
    if lines != [] {
      ParamsClean(lines[1..]);
      LineParamsClean(lines[0]);
      AllCleanAppend(LineParams(lines[0]), ParamsOf(lines[1..]));
    }
  }

  /** `convert` as one function: the frame, the normalisation, the name and
      brief, the tags and the section. */
  function Document(text: string, signature: string): Result<string> {
    match Unframe(text)
    case Err(e) => Err(e)
    case Ok(inner) =>
      match SplitNameBrief(Normalise(inner))
      case Err(e) => Err(e)
      case Ok(parts) =>
        var lines := SplitLines(parts.body);
        ParamsClean(lines);
        Ok(Section(parts.name, parts.brief, Strip(signature),
                   RStrip(DescOf(lines)), ParamsOf(lines), RetvalOf(lines)))
  }

  // The first assertion fails exactly when the stripped comment does not
  // open with `/**`.
  lemma DocumentNoOpening(text: string, signature: string)
    ensures Document(text, signature) == Err(NoOpening) <==> !StartsWith(Strip(text), "/**")
  {
  }

  /** With the frame in place, the name unpacking fails exactly when the
      normalised comment holds no newline. */
  lemma DocumentNoName(text: string, signature: string)
    requires Unframe(text).Ok?
    ensures Document(text, signature) == Err(NoName) <==> '\n' !in Normalise(Unframe(text).value)
  {
  }

  /** A converted comment starts with its heading, the first normalised
      line. */
  lemma DocumentHeading(text: string, signature: string)
    requires Document(text, signature).Ok?
    ensures var parts := SplitNameBrief(Normalise(Unframe(text).value)).value;
      StartsWith(Document(text, signature).value, "## " + parts.name + "\n")
  {
    var parts := SplitNameBrief(Normalise(Unframe(text).value)).value;
    var lines := SplitLines(parts.body);
    ParamsClean(lines);
    SectionHeading(parts.name, parts.brief, Strip(signature), RStrip(DescOf(lines)), ParamsOf(lines), RetvalOf(lines));
  }

  /** A section opens with its heading line. */
  lemma SectionHeading(name: string, brief: string, signature: string, desc: string,
                       params: seq<(string, string)>, retval: Option<string>)
    requires AllClean(params)
    ensures StartsWith(Section(name, brief, signature, desc, params, retval), "## " + name + "\n")
  {
    var head := Print("## " + name);
    assert head == "## " + name + "\n";
    assert head[..|head|] == head;
    TextWrap.HaltsIndent(brief, Width, "");
    var s1 := head + PrintWrapped(brief, "", "");
    StartsWithAppend(head, PrintWrapped(brief, "", ""), head);
    var s2 := s1 + Print("");
    StartsWithAppend(s1, Print(""), head);
    var s3 := s2 + Print("```c\n" + signature + "\n```");
    StartsWithAppend(s2, Print("```c\n" + signature + "\n```"), head);
    var s4 := s3 + Print("");
    StartsWithAppend(s3, Print(""), head);
    var s5 := s4 + Paragraphs(SplitLines(desc));
    StartsWithAppend(s4, Paragraphs(SplitLines(desc)), head);
    var s6 := s5 + Bullets(params);
    StartsWithAppend(s5, Bullets(params), head);
    var s7 := s6 + ReturnPart(retval);
    StartsWithAppend(s6, ReturnPart(retval), head);
    StartsWithAppend(s7, Print(""), head);
    assert Section(name, brief, signature, desc, params, retval) == s7 + Print("");
  }

  /** The return bullet is there exactly when the return text is truthy. */
  lemma ReturnPartPresent(retval: Option<string>)
    ensures ReturnPart(retval) != [] <==> retval.Some? && retval.value != []
  {
  }

  /** A parameter bullet fits the 79 columns on every line as long as the
      parameter name is shorter than 59 characters, and its first line starts
      with the bullet. */
  lemma BulletFits(name: string, text: string)
    requires Clean(text) && |name| < 59
    ensures TextWrap.Halts(TextWrap.Chunks(TextWrap.Munge(text)), [], Width, Bullet(name))
    ensures var lines := TextWrap.Wrap(text, Width, Bullet(name), "  ");
      forall i :: 0 <= i < |lines| ==> |lines[i]| <= Width && StartsWith(lines[i], if i == 0 then Bullet(name) else "  ")
  {
    TextWrap.HaltsFrom(text, Width, Bullet(name));
  }

  /** `convert`, step by step in the order the generator takes them. */
  method Convert(text: string, signature: string) returns (r: Result<string>)
    ensures r == Document(text, signature)
  {
    var framed := Unframe(text);
    if framed.Err? {
      return Err(framed.error);
    }
    var normal := Normalise(framed.value);
    var parts := SplitNameBrief(normal);
    if parts.Err? {
      return Err(parts.error);
    }
    var sig := Strip(signature);
    var desc, params, retval := ParseTags(parts.value.body);
    ParamsClean(SplitLines(parts.value.body));
    r := Ok(Section(parts.value.name, parts.value.brief, sig, desc, params, retval));
  }
}
