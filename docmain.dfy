/**
 The driver of the API-documentation generator: it finds every documentation
 comment of the header together with the declaration that follows it, puts
 backticks around the `W65C02SCE_` identifiers of the comment, converts the
 pair into a Markdown section and writes the sections after a fixed preamble.
 */
module DocMain {
  import opened PyStr
  import opened DocGen

  // ---------------------------------------------------------------------
  // Finding comment blocks

  predicate CloseAt(s: string, k: int) {
    0 <= k && k + 1 < |s| && s[k] == '*' && s[k + 1] == '/'
  }

  // The first `*/` that starts at or after `from`, or `|s|`.
  function FindClose(s: string, from: nat): (j: nat)
    requires from <= |s|
    ensures from <= j <= |s|
    ensures j < |s| ==> CloseAt(s, j)
    ensures forall k :: from <= k < j ==> !CloseAt(s, k)
    decreases |s| - from
  {
    if from == |s| then from
    else if CloseAt(s, from) then from
    else FindClose(s, from + 1)
  }

  /** The first `;` at or after `from`, or `|s|`. */
  function FindSemi(s: string, from: nat): (k: nat)
    requires from <= |s|
    ensures from <= k <= |s|
    ensures k < |s| ==> s[k] == ';'
    ensures forall m :: from <= m < k ==> s[m] != ';'
    decreases |s| - from
  {
    if from == |s| || s[from] == ';' then from
    else FindSemi(s, from + 1)
  }

  // The opening `/** ` starts at `i`.
  predicate OpensAt(s: string, i: nat) {
    i + 4 <= |s| && s[i] == '/' && s[i + 1] == '*' && s[i + 2] == '*' && s[i + 3] == ' '
  }

  // `re.findall(r"(?s)(/\*\* .+?\*/)([^;]*?;)", s)` from position `i`: at
  // each position the block must open with `/** `, run to the first `*/`
  // that leaves at least one character after the opening, and be followed
  // by a declaration ending at the first `;`; when that fails the search
  // moves on by one character, and after a match it resumes behind the
  // `;`.
  function ScanFrom(s: string, i: nat): seq<(string, string)>
    requires i <= |s|
    decreases |s| - i
  {
    if i == |s| then []
    else
      var m := MatchAt(s, i);
      if m.None? then ScanFrom(s, i + 1)
      else [Found(s, i, m.value.0, m.value.1)] + ScanFrom(s, m.value.1 + 1)
  }

  // The comment block and the declaration of a match.
  function Found(s: string, i: nat, j: nat, k: nat): (string, string)
    requires i <= j + 2 <= k + 1 <= |s|
  {
    (s[i..j + 2], s[j + 2..k + 1])
  }

  /** Where the block opening at `i` closes and where its declaration ends,
      when the pattern matches there. */
  function MatchAt(s: string, i: nat): (m: Option<(nat, nat)>)
    requires i <= |s|
    ensures m.Some? ==> i + 5 <= m.value.0 && m.value.0 + 2 <= m.value.1 < |s|
    ensures m.Some? ==> Block(s[i..m.value.0 + 2]) && Declaration(s[m.value.0 + 2..m.value.1 + 1])
  {
    if OpensAt(s, i) && i + 5 <= |s| then
      var j := FindClose(s, i + 5);
      if j == |s| then None
      else
        var k := FindSemi(s, j + 2);
        if k == |s| then None
        else
          BlockAt(s, i, j);
          DeclarationAt(s, j + 2, k);
          Some((j, k))
    else None
  }

  /** Conversely, a comment block opening at `i` and the declaration after
      it are what `MatchAt` finds there. */
  lemma MatchAtFinds(s: string, i: nat, j: nat, k: nat)
    requires i + 5 <= j && j + 2 <= k < |s|
    requires Block(s[i..j + 2]) && Declaration(s[j + 2..k + 1])
    ensures MatchAt(s, i) == Some((j, k))
  {
    BlockCloses(s, i, j);
    DeclarationEnds(s, j, k);
  }

  lemma BlockCloses(s: string, i: nat, j: nat)
    requires i + 5 <= j && j + 2 <= |s|
    requires Block(s[i..j + 2])
    ensures OpensAt(s, i) && FindClose(s, i + 5) == j
  {
    var c := s[i..j + 2];
    assert c[..4] == "/** " && c[|c| - 2..] == "*/";
    assert s[i..i + 4] == c[..4] && s[j..j + 2] == c[|c| - 2..];
    assert OpensAt(s, i) && CloseAt(s, j);
    forall m | i + 5 <= m < j
      ensures !CloseAt(s, m)
    {
      assert c[m - i] == s[m] && c[m - i + 1] == s[m + 1];
      assert !CloseAt(c, m - i);
    }
  }

  lemma DeclarationEnds(s: string, j: nat, k: nat)
    requires j + 2 <= k < |s|
    requires Declaration(s[j + 2..k + 1])
    ensures FindSemi(s, j + 2) == k
  {
    var g := s[j + 2..k + 1];
    assert g[|g| - 1] == s[k];
    assert forall m :: j + 2 <= m < k ==> g[m - j - 2] == s[m];
  }

  function Scan(s: string): seq<(string, string)> {
    ScanFrom(s, 0)
  }

  // A scanned comment: it opens with `/** `, holds some text, and no `*/`
  // starts between the first character of that text and the closing one.
  predicate Block(c: string) {
    |c| >= 7 && StartsWith(c, "/** ") && EndsWith(c, "*/")
    && forall k :: 5 <= k < |c| - 2 ==> !CloseAt(c, k)
  }

  /** A scanned declaration: everything up to and including the first `;`. */
  predicate Declaration(g: string) {
    g != [] && g[|g| - 1] == ';' && forall m :: 0 <= m < |g| - 1 ==> g[m] != ';'
  }

  lemma BlockAt(s: string, i: nat, j: nat)
    requires OpensAt(s, i) && i + 5 <= j && CloseAt(s, j)
    requires forall k :: i + 5 <= k < j ==> !CloseAt(s, k)
    ensures Block(s[i..j + 2])
  {
    var c := s[i..j + 2];
    assert c[0] == '/' && c[1] == '*' && c[2] == '*' && c[3] == ' ';
    assert c[..4] == "/** ";
    assert c[|c| - 2..] == s[j..j + 2];
    forall k | 5 <= k < |c| - 2
      ensures !CloseAt(c, k)
    {
      assert c[k] == s[i + k] && c[k + 1] == s[i + k + 1];
      assert !CloseAt(s, i + k);
    }
  }

  lemma DeclarationAt(s: string, j: nat, k: nat)
    requires j <= k < |s| && s[k] == ';'
    requires forall m :: j <= m < k ==> s[m] != ';'
    ensures Declaration(s[j..k + 1])
  {
    var g := s[j..k + 1];
    assert forall m :: 0 <= m < |g| ==> g[m] == s[j + m];
  }

  predicate Shaped(pairs: seq<(string, string)>) {
    forall n :: 0 <= n < |pairs| ==> Block(pairs[n].0) && Declaration(pairs[n].1)
  }

  lemma ShapedCons(p: (string, string), pairs: seq<(string, string)>)
    requires Block(p.0) && Declaration(p.1) && Shaped(pairs)
    ensures Shaped([p] + pairs)
  {
    assert forall n :: 1 <= n <= |pairs| ==> ([p] + pairs)[n] == pairs[n - 1];
  }

  lemma ShapedMatch(s: string, i: nat, j: nat, k: nat)
    requires i < |s| && MatchAt(s, i) == Some((j, k)) && Shaped(ScanFrom(s, k + 1))
    ensures Shaped(ScanFrom(s, i))
  {
    BlockAt(s, i, j);
    DeclarationAt(s, j + 2, k);
    ShapedCons(Found(s, i, j, k), ScanFrom(s, k + 1));
    ScanMatch(s, i, j, k);
  }

  lemma ScanMatch(s: string, i: nat, j: nat, k: nat)
    requires i < |s| && MatchAt(s, i) == Some((j, k))
    ensures ScanFrom(s, i) == [Found(s, i, j, k)] + ScanFrom(s, k + 1)
  {
    var m := MatchAt(s, i);
    assert m.value.0 == j && m.value.1 == k;
    assert ScanFrom(s, i) == [Found(s, i, m.value.0, m.value.1)] + ScanFrom(s, m.value.1 + 1);
  }

  /** Every pair found is a comment block and the declaration after it. */
  lemma {:induction false} ScanShape(s: string, i: nat)
    requires i <= |s|
    ensures Shaped(ScanFrom(s, i))
    decreases |s| - i
  {
    if i < |s| {
      match MatchAt(s, i)
      case None =>
        ScanShape(s, i + 1);
      case Some((j, k)) =>
        ScanShape(s, k + 1);
        ShapedMatch(s, i, j, k);
    }
  }

  // The search finds nothing when no `/** ` occurs.
  lemma {:induction false} ScanNone(s: string, i: nat)
    requires i <= |s|
    requires forall p :: i <= p <= |s| ==> !OpensAt(s, p)
    ensures ScanFrom(s, i) == []
    decreases |s| - i
  {
    if i < |s| {
      ScanNone(s, i + 1);
    }
  }

  // ---------------------------------------------------------------------
  // Quoting identifiers

  const Prefix := "W65C02SCE_"

  predicate IdentChar(c: char) {
    ('A' <= c <= 'Z') || ('0' <= c <= '9') || c == '_'
  }

  /** Length of the leading run of `[A-Z0-9_]`. */
  function IdentRun(s: string): (n: nat)
    ensures n <= |s|
    ensures forall k :: 0 <= k < n ==> IdentChar(s[k])
    ensures n < |s| ==> !IdentChar(s[n])
  {
    if s == [] || !IdentChar(s[0]) then 0 else 1 + IdentRun(s[1..])
  }

  /** Length of the identifier at the start of `s`: the prefix and a
      non-empty, longest run of `[A-Z0-9_]`; 0 when there is none. */
  function IdentAt(s: string): (n: nat)
    ensures n == 0 || (11 <= n <= |s| && StartsWith(s, Prefix))
    ensures forall k :: 0 <= k < n ==> IdentChar(s[k])
    ensures 0 < n < |s| ==> !IdentChar(s[n])
    ensures StartsWith(s, Prefix) && |s| > |Prefix| && IdentChar(s[|Prefix|]) ==> n > 0
  {
    if StartsWith(s, Prefix) && IdentRun(s[10..]) > 0 then
      var n := 10 + IdentRun(s[10..]);
      assert forall k :: 10 <= k < n ==> s[k] == s[10..][k - 10];
      assert forall k :: 0 <= k < 10 ==> s[k] == Prefix[k];
      n
    else 0
  }

  /** `re.sub(r"(W65C02SCE_[A-Z0-9_]+)", r"`\1`", s)`: scanning from the
      left, every identifier is put between backticks. */
  function Quote(s: string): string
    decreases |s|
  {
    if s == [] then []
    else
      var n := IdentAt(s);
      if n > 0 then "`" + s[..n] + "`" + Quote(s[n..])
      else [s[0]] + Quote(s[1..])
  }

  /** An identifier, the prefix and a longest non-empty run of `[A-Z0-9_]`,
      comes out between backticks. */
  lemma QuoteIdent(w: string, rest: string)
    requires w != [] && forall k :: 0 <= k < |w| ==> IdentChar(w[k])
    requires rest == [] || !IdentChar(rest[0])
    ensures Quote(Prefix + w + rest) == "`" + Prefix + w + "`" + Quote(rest)
  {
    IdentAtIdent(w, rest);
    var id := Prefix + w;
    QuoteSplit(id, rest);
    assert "`" + Prefix + w == "`" + id;
  }

  lemma QuoteSplit(id: string, rest: string)
    requires IdentAt(id + rest) == |id| > 0
    ensures Quote(id + rest) == "`" + id + "`" + Quote(rest)
  {
    var s := id + rest;
    assert s[..|id|] == id && s[|id|..] == rest;
  }

  lemma IdentAtIdent(w: string, rest: string)
    requires w != [] && forall k :: 0 <= k < |w| ==> IdentChar(w[k])
    requires rest == [] || !IdentChar(rest[0])
    ensures IdentAt(Prefix + w + rest) == |Prefix| + |w|
  {
    var s := Prefix + w + rest;
    assert s[..|Prefix|] == Prefix && s[|Prefix|] == w[0];
    var n := IdentAt(s);
    assert forall k :: |Prefix| <= k < |Prefix| + |w| ==> s[k] == w[k - |Prefix|];
    if |Prefix| + |w| < |s| {
      assert s[|Prefix| + |w|] == rest[0];
    }
  }

  /** Text in which the prefix does not occur comes out unchanged. */
  lemma {:induction false} QuotePlain(s: string)
    requires forall p :: 0 <= p <= |s| ==> !StartsWith(s[p..], Prefix)
    ensures Quote(s) == s
    decreases |s|
  {
    if s != [] {
      assert s[0..] == s;
      forall p | 0 <= p <= |s| - 1
        ensures !StartsWith(s[1..][p..], Prefix)
      {
        assert s[1..][p..] == s[p + 1..];
      }
      QuotePlain(s[1..]);
    }
  }

  /** `s` without its backticks. */
  function NoTicks(s: string): string {
    if s == [] then [] else (if s[0] == '`' then [] else [s[0]]) + NoTicks(s[1..])
  }

  lemma {:induction false} NoTicksAppend(a: string, b: string)
    ensures NoTicks(a + b) == NoTicks(a) + NoTicks(b)
  {
    if a != [] {
      assert (a + b)[1..] == a[1..] + b;
      NoTicksAppend(a[1..], b);
    } else {
      assert a + b == b;
    }
  }

  lemma NoTicksWrap(w: string, rest: string)
    ensures NoTicks("`" + w + "`" + rest) == NoTicks(w) + NoTicks(rest)
  {
    var t := "`";
    assert NoTicks(t) == [] by {
      assert t[0] == '`' && t[1..] == [];
    }
    var a := t + w;
    NoTicksAppend(t, w);
    var b := a + t;
    NoTicksAppend(a, t);
    NoTicksAppend(b, rest);
  }

  /** The substitution only inserts backticks. */
  lemma {:induction false} QuoteOnlyTicks(s: string)
    ensures NoTicks(Quote(s)) == NoTicks(s)
    decreases |s|
  {
    if s != [] {
      var n := IdentAt(s);
      if n > 0 {
        QuoteOnlyTicks(s[n..]);
        assert s == s[..n] + s[n..];
        QuoteSplit(s[..n], s[n..]);
        NoTicksWrap(s[..n], Quote(s[n..]));
        NoTicksAppend(s[..n], s[n..]);
      } else {
        QuoteOnlyTicks(s[1..]);
        assert Quote(s) == [s[0]] + Quote(s[1..]);
        NoTicksAppend([s[0]], Quote(s[1..]));
        NoTicksAppend([s[0]], s[1..]);
        assert [s[0]] + s[1..] == s;
      }
    }
  }

  // The opening `/**` is kept.
  lemma QuoteKeepsOpening(s: string)
    requires StartsWith(s, "/**")
    ensures StartsWith(Quote(s), "/**")
  {
    assert s[0] == '/' && s[1] == '*' && s[2] == '*';
    assert IdentAt(s) == 0;
    var t := s[1..];
    assert t[0] == '*';
    assert IdentAt(t) == 0;
    var u := t[1..];
    assert u[0] == '*';
    assert IdentAt(u) == 0;
    assert Quote(u) == [u[0]] + Quote(u[1..]);
    assert Quote(t) == [t[0]] + Quote(u);
    assert Quote(s) == [s[0]] + Quote(t);
    assert Quote(s)[..3] == [s[0], t[0], u[0]];
  }

  // The closing `*/` is kept: no identifier reaches into it.
  lemma {:induction false} QuoteKeepsClosing(s: string)
    requires EndsWith(s, "*/")
    ensures EndsWith(Quote(s), "*/")
    decreases |s|
  {
    var n := IdentAt(s);
    if n > 0 {
      assert !IdentChar(s[|s| - 2]);
      assert n <= |s| - 2;
      var rest := s[n..];
      assert rest[|rest| - 2..] == s[|s| - 2..];
      QuoteKeepsClosing(rest);
      EndsAfter("`" + s[..n] + "`", Quote(rest));
    } else if |s| > 2 {
      var rest := s[1..];
      assert rest[|rest| - 2..] == s[|s| - 2..];
      QuoteKeepsClosing(rest);
      EndsAfter([s[0]], Quote(rest));
    } else {
      assert s == "*/";
      assert IdentAt(s[1..]) == 0;
      assert Quote(s) == [s[0]] + ([s[1]] + Quote([]));
    }
  }

  lemma EndsAfter(p: string, q: string)
    requires EndsWith(q, "*/")
    ensures EndsWith(p + q, "*/")
  {
    assert (p + q)[|p + q| - 2..] == q[|q| - 2..];
  }

  // ---------------------------------------------------------------------
  // The whole run

  /** The preamble printed before the first section. */
  const Preamble := "```c\n#include \"w65c02s.h\"\n```\n\n"

  /** The section of one scanned pair, or why it could not be made. */
  function Convert1(p: (string, string)): Result<string> {
    Document(Quote(p.0), p.1)
  }

  /** The sections of the pairs converted by `f`, in order, up to the first
      failed conversion, and that failure. */
  function Run(pairs: seq<(string, string)>, f: ((string, string)) -> Result<string>): (string, Option<Error>)
  {
    if pairs == [] then ([], None)
    else
      match f(pairs[0])
      case Err(e) => ([], Some(e))
      case Ok(section) =>
        var rest := Run(pairs[1..], f);
        (section + rest.0, rest.1)
  }

  /** One more pair: the section is appended, or the new failure recorded. */
  lemma {:induction false} RunSnoc(pairs: seq<(string, string)>, f: ((string, string)) -> Result<string>, p: (string, string))
    requires Run(pairs, f).1 == None
    ensures Run(pairs + [p], f) ==
      if f(p).Err? then (Run(pairs, f).0, Some(f(p).error)) else (Run(pairs, f).0 + f(p).value, None)
  {
    if pairs == [] {
      assert [] + [p] == [p];
      assert [p][1..] == [];
      if f(p).Ok? {
        var v := f(p).value;
        assert Run([p], f) == (v + [], None);
        assert v + [] == v && [] + v == v;
      }
    } else {
      assert (pairs + [p])[1..] == pairs[1..] + [p];
      assert (pairs + [p])[0] == pairs[0];
      var head := f(pairs[0]).value;
      RunSnoc(pairs[1..], f, p);
      if f(p).Ok? {
        AppendAssoc(head, Run(pairs[1..], f).0, f(p).value);
      }
    }
  }

  /** Once a prefix has failed, the rest of the run adds nothing. */
  lemma {:induction false} RunPrefix(pairs: seq<(string, string)>, f: ((string, string)) -> Result<string>, n: nat)
    requires n <= |pairs| && Run(pairs[..n], f).1.Some?
    ensures Run(pairs, f) == Run(pairs[..n], f)
  {
    if n > 0 {
      assert pairs[..n][0] == pairs[0];
      assert pairs[..n][1..] == pairs[1..][..n - 1];
      if f(pairs[0]).Ok? {
        RunPrefix(pairs[1..], f, n - 1);
      }
    }
  }

  /** The generator's main loop: the preamble, then for every pair found its
      quoted comment converted; a failing conversion ends the run, leaving
      what was written so far. */
  method Generate(source: string) returns (out: string, failure: Option<Error>)
    ensures out == Preamble + Run(Scan(source), Convert1).0
    ensures failure == Run(Scan(source), Convert1).1
  {
    out, failure := Emit(Preamble, Scan(source), Convert1);
  }

  /** Writes after `head` the section `f` makes of each pair in turn,
      stopping at the first pair `f` fails on. */
  method Emit(head: string, pairs: seq<(string, string)>, f: ((string, string)) -> Result<string>)
    returns (out: string, failure: Option<Error>)
    ensures out == head + Run(pairs, f).0
    ensures failure == Run(pairs, f).1
  {
    out := head;
    var i := 0;
    while i < |pairs|
      invariant 0 <= i <= |pairs|
      invariant Run(pairs[..i], f).1 == None
      invariant out == head + Run(pairs[..i], f).0
    {
      var section := f(pairs[i]);
      RunStep(pairs, f, i);
      if section.Err? {
        return out, Some(section.error);
      }
      AppendAssoc(head, Run(pairs[..i], f).0, section.value);
      out := out + section.value;
      i := i + 1;
    }
    assert pairs[..i] == pairs;
    failure := None;
  }

  /** One iteration of a loop over the pairs that runs `f` on each. */
  lemma RunStep(pairs: seq<(string, string)>, f: ((string, string)) -> Result<string>, i: nat)
    requires i < |pairs| && Run(pairs[..i], f).1 == None
    ensures f(pairs[i]).Err? ==> Run(pairs, f) == (Run(pairs[..i], f).0, Some(f(pairs[i]).error))
    ensures f(pairs[i]).Ok? ==> Run(pairs[..i + 1], f) == (Run(pairs[..i], f).0 + f(pairs[i]).value, None)
  {
    assert pairs[..i + 1] == pairs[..i] + [pairs[i]];
    RunSnoc(pairs[..i], f, pairs[i]);
    if f(pairs[i]).Err? {
      RunPrefix(pairs, f, i + 1);
    }
  }

  lemma AppendAssoc(a: string, b: string, c: string)
    ensures a + (b + c) == (a + b) + c
  {
  }

  /** Without any comment block the output is exactly the preamble. */
  lemma NoBlocks(source: string)
    requires forall p :: 0 <= p <= |source| ==> !OpensAt(source, p)
    ensures Scan(source) == [] && Run(Scan(source), Convert1) == ([], None)
  {
    ScanNone(source, 0);
  }

  /** The frame assertions always hold for what the scanner finds. */
  lemma ScannedUnframes(source: string, m: (string, string))
    requires m in Scan(source)
    ensures Unframe(Quote(m.0)).Ok?
  {
    ScanShape(source, 0);
    var c := m.0;
    assert Block(c);
    assert StartsWith(c, "/**") by {
      assert c[..3] == c[..4][..3];
    }
    QuoteKeepsOpening(c);
    QuoteKeepsClosing(c);
    var q := Quote(c);
    QuoteLength(c);
    FramedStrip(q);
  }

  lemma {:induction false} QuoteLength(s: string)
    ensures |Quote(s)| >= |s|
    decreases |s|
  {
    if s != [] {
      var n := IdentAt(s);
      if n > 0 {
        QuoteLength(s[n..]);
      } else {
        QuoteLength(s[1..]);
      }
    }
  }

  // A text of at least five characters that opens with `/**` and closes
  // with `*/` passes both frame assertions.
  lemma FramedStrip(q: string)
    requires |q| >= 5 && StartsWith(q, "/**") && EndsWith(q, "*/")
    ensures Unframe(q).Ok?
  {
    assert q[0] == '/' && q[|q| - 1] == '/';
    StripUnchanged(q);
    var u := q[3..];
    LStripSpec(u);
    var l := LStrip(u);
    assert u[|u| - 2] == '*' && u[|u| - 1] == '/';
    NotAllSpace(u, |u| - |l|, |u| - 2);
    assert l[|l| - 2..] == u[|u| - 2..];
    UnframeOk(q);
  }

  /** Both frame assertions pass once the stripped text opens with `/**`
      and ends with `*/` after its left strip. */
  lemma UnframeOk(text: string)
    requires StartsWith(Strip(text), "/**") && EndsWith(LStrip(Strip(text)[3..]), "*/")
    ensures Unframe(text).Ok?
  {
  }

  /** A run of whitespace cannot reach over a character that is not
      whitespace. */
  lemma NotAllSpace(u: string, n: nat, k: nat)
    requires n <= |u| && k < |u| && AllSpace(u[..n]) && !IsSpace(u[k])
    ensures n <= k
  {
  }

  /** Text that starts and ends with a non-space character is its own
      strip. */
  lemma StripUnchanged(s: string)
    requires s != [] && !IsSpace(s[0]) && !IsSpace(s[|s| - 1])
    ensures Strip(s) == s
  {
    assert LStrip(s) == s;
    assert RStrip(s) == s;
  }
}
