/** The mixed text/math renderer (components/MathRenderer.tsx).

    A string without `$` goes to the typesetter whole. Otherwise two global
    regular-expression replacements run: `/\$\$(.*?)\$\$/g` in display mode,
    then `/\$(.*?)\$/g` in inline mode over the first one's output; finally
    every `\n` becomes `<br/>`. Here each replacement is a scanner (`Scan`)
    that cuts the string into literal characters and spans, followed by a
    substitution that calls the typesetter on every span. The typesetter is a
    parameter that may fail, which stands for a thrown exception. */
module MathRenderer {
  import opened Outcomes
  import opened Text

  /** KaTeX: markup for a TeX string in display (`true`) or inline mode, or
      `None` when it throws. */
  type Typesetter = (string, bool) -> Option<string>

  const BlockDelim: string := "$$"
  const InlineDelim: string := "$"

  /** One unit of a scanned string: a character copied as it is, or a math
      span with the TeX between its delimiters. */
  datatype Piece = Literal(c: char) | Span(tex: string)

  /** What the component's container shows: markup assigned to `innerHTML`
      (or written by `katex.render`), or raw text assigned to `textContent`. */
  datatype Surface = Markup(html: string) | TextContent(text: string)

  // ---------------------------------------------------------------------
  // Scanning

  /** `k` is where the lazy `(.*?)` stops: the first index at or after `from`
      where the closing delimiter `d` occurs, with no line terminator and no
      earlier occurrence of `d` in between. */
  ghost predicate IsFirstClose(s: string, from: nat, d: string, k: nat) {
    && from <= k <= |s|
    && OccursAt(s, d, k)
    && (forall j :: from <= j < k ==> !IsLineTerminator(s[j]))
    && (forall j :: from <= j < k ==> !OccursAt(s, d, j))
  }

  /** The search the lazy quantifier performs: try to close here, else take
      one more character if `.` accepts it. `FindCloseFirst` proves that this
      finds the first close exactly. */
  function FindClose(s: string, from: nat, d: string): (r: Option<nat>)
    requires from <= |s|
    ensures r.Some? ==> from <= r.value && OccursAt(s, d, r.value)
    decreases |s| - from
  {
    if OccursAt(s, d, from) then Some(from)
    else if from < |s| && !IsLineTerminator(s[from]) then FindClose(s, from + 1, d)
    else None
  }

  /** The search finds the first close when there is one, and reports none
      exactly when there is none. */
  lemma {:induction false} FindCloseFirst(s: string, from: nat, d: string)
    requires from <= |s|
    ensures FindClose(s, from, d).Some? ==> IsFirstClose(s, from, d, FindClose(s, from, d).value)
    ensures FindClose(s, from, d).None? ==> forall k: nat :: !IsFirstClose(s, from, d, k)
    decreases |s| - from
  {
    if !OccursAt(s, d, from) && from < |s| && !IsLineTerminator(s[from]) {
      FindCloseFirst(s, from + 1, d);
      assert forall k: nat :: IsFirstClose(s, from, d, k) <==> IsFirstClose(s, from + 1, d, k);
    }
  }

  /** A span's TeX: it holds no line terminator, and the closing delimiter
      does not occur in `tex + d` before the one that closes it. */
  ghost predicate CleanTex(tex: string, d: string) {
    && (forall j :: 0 <= j < |tex| ==> !IsLineTerminator(tex[j]))
    && (forall j :: 0 <= j < |tex| ==> !OccursAt(tex + d, d, j))
  }

  /** One global replacement's view of `s`: at each position, either a span
      opens with `d` and closes at the first closing `d` on the same line, or
      the character is copied and the scan moves on by one. */
  function Scan(s: string, d: string): (r: seq<Piece>)
    requires d != []
    decreases |s|
  {
    if |s| == 0 then []
    else if OccursAt(s, d, 0) && FindClose(s, |d|, d).Some? then
      var k := FindClose(s, |d|, d).value;
      [Span(s[|d|..k])] + Scan(s[k + |d|..], d)
    else [Literal(s[0])] + Scan(s[1..], d)
  }

  /** The string a list of pieces was scanned from. */
  function Flatten(ps: seq<Piece>, d: string): string {
    if ps == [] then []
    else
      (match ps[0]
       case Literal(c) => [c]
       case Span(tex) => d + tex + d)
      + Flatten(ps[1..], d)
  }

  /** The literal pieces of a piece of plain text. */
  function Literals(p: string): (r: seq<Piece>)
    ensures |r| == |p|
    ensures forall i :: 0 <= i < |p| ==> r[i] == Literal(p[i])
  {
    seq(|p|, i requires 0 <= i < |p| => Literal(p[i]))
  }

  // ---------------------------------------------------------------------
  // Substitution and the whole render

  /** The replacement callbacks, left to right: a literal is copied, a span
      becomes the typesetter's markup; a failing call aborts the replacement. */
  function Substitute(ps: seq<Piece>, display: bool, typeset: Typesetter): Option<string>
  {
    if ps == [] then Some([])
    else
      var head := match ps[0]
        case Literal(c) => Some([c])
        case Span(tex) => typeset(tex, display);
      match head
      case None => None
      case Some(h) =>
        match Substitute(ps[1..], display, typeset)
        case None => None
        case Some(t) => Some(h + t)
  }

  /** `html.replace(/\$\$(.*?)\$\$/g, …)` for `d == "$$"`, `/\$(.*?)\$/g` for `d == "$"`. */
  function ReplacePass(s: string, d: string, display: bool, typeset: Typesetter): Option<string>
    requires d != []
  {
    Substitute(Scan(s, d), display, typeset)
  }

  /** `html.replace(/\n/g, '<br/>')`. */
  function ReplaceNewlines(s: string): (r: string)
    ensures '\n' !in r
  {
    if s == [] then []
    else (if s[0] == '\n' then "<br/>" else [s[0]]) + ReplaceNewlines(s[1..])
  }

  /** `renderMath()`: what the container shows for `content`. Any failure of
      the typesetter is caught and the raw content shown as text. */
  function RenderMath(content: string, block: bool, typeset: Typesetter): Surface {
    if '$' in content then
      match ReplacePass(content, BlockDelim, true, typeset)
      case None => TextContent(content)
      case Some(html) =>
        match ReplacePass(html, InlineDelim, false, typeset)
        case None => TextContent(content)
        case Some(html2) => Markup(ReplaceNewlines(html2))
    else
      match typeset(content, block)
      case None => TextContent(content)
      case Some(html) => Markup(html)
  }

  /** The component's container. The effect re-runs `renderMath` whenever
      `content` or `block` changes; every run overwrites what is shown. */
  class MathView {
    var surface: Surface

    constructor (content: string, block: bool, typeset: Typesetter)
      ensures surface == RenderMath(content, block, typeset)
    {
      surface := RenderMath(content, block, typeset);
    }

    method Render(content: string, block: bool, typeset: Typesetter)
      modifies this
      ensures surface == RenderMath(content, block, typeset)
    {
      surface := RenderMath(content, block, typeset);
    }
  }

  // ---------------------------------------------------------------------
  // The scanner characterised without FindClose

  lemma FirstCloseUnique(s: string, from: nat, d: string, k: nat, k': nat)
    requires IsFirstClose(s, from, d, k) && IsFirstClose(s, from, d, k')
    ensures k == k'
  {
  }

  /** A span opens at an opening delimiter and ends at its first close. */
  lemma ScanOpensSpan(s: string, d: string, k: nat)
    requires d != [] && OccursAt(s, d, 0) && IsFirstClose(s, |d|, d, k)
    ensures Scan(s, d) == [Span(s[|d|..k])] + Scan(s[k + |d|..], d)
  {
    FindCloseFirst(s, |d|, d);
    var r := FindClose(s, |d|, d);
    assert r.Some?;
    FirstCloseUnique(s, |d|, d, r.value, k);
    ScanAtClose(s, d, k);
  }

  /** One step of the scan where a span opens and the search closes it at `k`. */
  lemma {:induction false} ScanAtClose(s: string, d: string, k: nat)
    requires d != [] && OccursAt(s, d, 0) && FindClose(s, |d|, d) == Some(k)
    ensures Scan(s, d) == [Span(s[|d|..k])] + Scan(s[k + |d|..], d)
  {
    assert |d| <= |s|;
  }

  /** One step of the scan where no span opens: the character is copied. */
  lemma ScanLiteralStep(s: string, d: string)
    requires d != [] && s != [] && !(OccursAt(s, d, 0) && FindClose(s, |d|, d).Some?)
    ensures Scan(s, d) == [Literal(s[0])] + Scan(s[1..], d)
  {
  }

  /** A character that does not open a closed span is copied. */
  lemma ScanCopiesChar(s: string, d: string)
    requires d != [] && s != []
    requires !OccursAt(s, d, 0) || forall k :: !IsFirstClose(s, |d|, d, k)
    ensures Scan(s, d) == [Literal(s[0])] + Scan(s[1..], d)
  {
    if |d| <= |s| {
      FindCloseFirst(s, |d|, d);
    }
    ScanLiteralStep(s, d);
  }

  /** Text before the first possible opening delimiter is copied. */
  lemma {:induction false} ScanLiteralPrefix(p: string, q: string, d: string)
    requires d != [] && d[0] !in p
    ensures Scan(p + q, d) == Literals(p) + Scan(q, d)
  {
    if p == [] {
      assert p + q == q;
      assert Literals(p) == [];
    } else {
      var s := p + q;
      assert s[0] == p[0] != d[0];
      assert !OccursAt(s, d, 0) by {
        if |d| <= |s| {
          assert s[..|d|][0] == s[0];
        }
      }
      ScanLiteralStep(s, d);
      assert s[1..] == p[1..] + q;
      ScanLiteralPrefix(p[1..], q, d);
      assert Literals(p) == [Literal(p[0])] + Literals(p[1..]);
    }
  }

  /** A `$` that no `$` closes on its line is copied as a literal. */
  lemma UnclosedDollarCopied(q: string)
    requires forall j :: 0 <= j < |q| && q[j] == '$' ==>
               exists m :: 0 <= m < j && IsLineTerminator(q[m])
    ensures Scan("$" + q, InlineDelim) == [Literal('$')] + Scan(q, InlineDelim)
  {
    var s := "$" + q;
    forall k: nat | 1 <= k <= |s| && OccursAt(s, InlineDelim, k)
      ensures exists j :: 1 <= j < k && IsLineTerminator(s[j])
    {
      assert q[k - 1] == '$';
      var m :| 0 <= m < k - 1 && IsLineTerminator(q[m]);
      assert IsLineTerminator(s[m + 1]);
    }
    ScanCopiesChar(s, InlineDelim);
    assert s[1..] == q;
  }

  /** Unterminated delimiter: a `$` with no other `$` after it on its line
      stays in the output as a literal `$`. */
  lemma LoneDollarStaysLiteral(p: string, q: string)
    requires '$' !in p
    requires forall j :: 0 <= j < |q| && q[j] == '$' ==>
               exists m :: 0 <= m < j && IsLineTerminator(q[m])
    ensures Scan(p + "$" + q, InlineDelim) == Literals(p) + [Literal('$')] + Scan(q, InlineDelim)
  {
    var s := "$" + q;
    assert p + "$" + q == p + s;
    ScanLiteralPrefix(p, s, InlineDelim);
    UnclosedDollarCopied(q);
    var lp, tail := Literals(p), Scan(q, InlineDelim);
    assert lp + ([Literal('$')] + tail) == lp + [Literal('$')] + tail;
  }

  /** The TeX between an opening delimiter and its first close is clean. */
  lemma {:induction false} FirstCloseTexClean(s: string, d: string, k: nat)
    requires |d| <= k && IsFirstClose(s, |d|, d, k)
    ensures CleanTex(s[|d|..k], d)
  {
    var tex := s[|d|..k];
    var u := s[|d|..k + |d|];
    assert tex + d == u;
    forall j | 0 <= j < |tex| ensures !IsLineTerminator(tex[j]) {
      assert tex[j] == s[|d| + j];
    }
    forall j | 0 <= j < |tex| ensures !OccursAt(tex + d, d, j) {
      assert !OccursAt(s, d, |d| + j);
      assert u[j..j + |d|] == s[|d| + j..|d| + j + |d|] by {
        forall m | j <= m < j + |d| ensures u[m] == s[|d| + m] {
        }
      }
    }
  }

  /** All spans among `ps` are clean. */
  ghost predicate SpansClean(ps: seq<Piece>, d: string) {
    forall i :: 0 <= i < |ps| && ps[i].Span? ==> CleanTex(ps[i].tex, d)
  }

  /** A clean piece in front of clean pieces. */
  lemma SpansCleanCons(p: Piece, tail: seq<Piece>, d: string)
    requires p.Span? ==> CleanTex(p.tex, d)
    requires SpansClean(tail, d)
    ensures SpansClean([p] + tail, d)
  {
    forall i | 0 <= i < |tail| + 1 && ([p] + tail)[i].Span?
      ensures CleanTex(([p] + tail)[i].tex, d)
    {
      if i > 0 {
        assert ([p] + tail)[i] == tail[i - 1];
      }
    }
  }

  /** Every span of a scan is clean: the lazy `(.*?)` never runs across a
      line break or past the first closing delimiter. */
  lemma {:induction false} ScanSpansClean(s: string, d: string)
    requires d != []
    ensures SpansClean(Scan(s, d), d)
    decreases |s|
  {
    if s != [] {
      if OccursAt(s, d, 0) && FindClose(s, |d|, d).Some? {
        var k := FindClose(s, |d|, d).value;
        FindCloseFirst(s, |d|, d);
        FirstCloseTexClean(s, d, k);
        ScanAtClose(s, d, k);
        ScanSpansClean(s[k + |d|..], d);
        SpansCleanCons(Span(s[|d|..k]), Scan(s[k + |d|..], d), d);
      } else {
        ScanLiteralStep(s, d);
        ScanSpansClean(s[1..], d);
        SpansCleanCons(Literal(s[0]), Scan(s[1..], d), d);
      }
    }
  }

  // ---------------------------------------------------------------------
  // Nothing is lost

  lemma FlattenConcat(a: seq<Piece>, b: seq<Piece>, d: string)
    ensures Flatten(a + b, d) == Flatten(a, d) + Flatten(b, d)
  {
    if a == [] {
      assert a + b == b;
    } else {
      assert (a + b)[0] == a[0] && (a + b)[1..] == a[1..] + b;
      FlattenConcat(a[1..], b, d);
    }
  }

  /** A string that opens with `d` and has `d` again at `k` is the opening
      delimiter, the text between, the closing delimiter and the rest. */
  lemma SpanRebuild(s: string, d: string, k: nat)
    requires OccursAt(s, d, 0) && OccursAt(s, d, k) && |d| <= k
    ensures d + s[|d|..k] + d + s[k + |d|..] == s
  {
    assert s == s[..|d|] + s[|d|..k] + s[k..k + |d|] + s[k + |d|..];
  }

  /** Scanning loses nothing: the literal characters and the delimited spans
      spell out the input exactly. */
  lemma {:induction false} ScanRoundTrip(s: string, d: string)
    requires d != []
    ensures Flatten(Scan(s, d), d) == s
    decreases |s|
  {
    if s != [] {
      var r := Scan(s, d);
      if OccursAt(s, d, 0) && FindClose(s, |d|, d).Some? {
        var k := FindClose(s, |d|, d).value;
        var rest := s[k + |d|..];
        ScanAtClose(s, d, k);
        ScanRoundTrip(rest, d);
        FlattenConcat([Span(s[|d|..k])], Scan(rest, d), d);
        assert Flatten([Span(s[|d|..k])], d) == d + s[|d|..k] + d;
        SpanRebuild(s, d, k);
      } else {
        ScanLiteralStep(s, d);
        ScanRoundTrip(s[1..], d);
        FlattenConcat([Literal(s[0])], Scan(s[1..], d), d);
        assert Flatten([Literal(s[0])], d) == [s[0]];
        assert s == [s[0]] + s[1..];
      }
    }
  }

  /** A substitution over pieces without spans reproduces the text. */
  lemma {:induction false} SubstituteNoSpans(ps: seq<Piece>, d: string, display: bool, typeset: Typesetter)
    requires forall i :: 0 <= i < |ps| ==> ps[i].Literal?
    ensures Substitute(ps, display, typeset) == Some(Flatten(ps, d))
  {
    if ps != [] {
      SubstituteNoSpans(ps[1..], d, display, typeset);
    }
  }

  lemma {:induction false} SubstituteConcat(a: seq<Piece>, b: seq<Piece>, display: bool, typeset: Typesetter)
    ensures Substitute(a + b, display, typeset) ==
      match Substitute(a, display, typeset)
      case None => None
      case Some(x) =>
        match Substitute(b, display, typeset)
        case None => None
        case Some(y) => Some(x + y)
  {
    if a == [] {
      assert a + b == b;
      if Substitute(b, display, typeset).Some? {
        assert [] + Substitute(b, display, typeset).value == Substitute(b, display, typeset).value;
      }
    } else {
      assert (a + b)[0] == a[0] && (a + b)[1..] == a[1..] + b;
      SubstituteConcat(a[1..], b, display, typeset);
      match Substitute(a[1..], display, typeset)
      case None =>
      case Some(x) =>
        match Substitute(b, display, typeset)
        case None =>
        case Some(y) =>
          var h := match a[0]
            case Literal(c) => Some([c])
            case Span(tex) => typeset(tex, display);
          if h.Some? {
            assert h.value + (x + y) == (h.value + x) + y;
          }
    }
  }

  lemma SubstituteLiterals(p: string, display: bool, typeset: Typesetter)
    ensures Substitute(Literals(p), display, typeset) == Some(p)
  {
    SubstituteNoSpans(Literals(p), InlineDelim, display, typeset);
    LiteralsFlatten(p, InlineDelim);
  }

  lemma {:induction false} LiteralsFlatten(p: string, d: string)
    ensures Flatten(Literals(p), d) == p
  {
    if p != [] {
      assert Literals(p)[1..] == Literals(p[1..]);
      LiteralsFlatten(p[1..], d);
      assert [p[0]] + p[1..] == p;
    }
  }

  /** Every display span uses four `$` of the input, so a string with fewer
      than four has none. */
  lemma {:induction false} BlockSpanNeedsFourDollars(s: string)
    requires exists i :: 0 <= i < |Scan(s, BlockDelim)| && Scan(s, BlockDelim)[i].Span?
    ensures multiset(s)['$'] >= 4
    decreases |s|
  {
    var r := Scan(s, BlockDelim);
    var i :| 0 <= i < |r| && r[i].Span?;
    assert s != [];
    if OccursAt(s, BlockDelim, 0) && FindClose(s, 2, BlockDelim).Some? {
      var k := FindClose(s, 2, BlockDelim).value;
      SpanRebuild(s, BlockDelim, k);
      DisplaySpanDollars(s[2..k], s[k + 2..]);
    } else {
      ScanLiteralStep(s, BlockDelim);
      var tail := Scan(s[1..], BlockDelim);
      assert r == [Literal(s[0])] + tail;
      assert tail[i - 1] == r[i];
      BlockSpanNeedsFourDollars(s[1..]);
      assert s == [s[0]] + s[1..];
      assert multiset(s) == multiset([s[0]]) + multiset(s[1..]);
    }
  }

  /** A display span and the text after it hold four `$` or more. */
  lemma DisplaySpanDollars(tex: string, rest: string)
    ensures multiset(BlockDelim + tex + BlockDelim + rest)['$'] >= 4
  {
    var s := BlockDelim + tex + BlockDelim + rest;
    assert multiset(s) == multiset(BlockDelim) + multiset(tex) + multiset(BlockDelim) + multiset(rest);
    assert multiset(BlockDelim)['$'] == 2;
  }

  /** With fewer than four `$`, the display pass changes nothing. */
  lemma BlockPassIdentity(s: string, typeset: Typesetter)
    requires multiset(s)['$'] < 4
    ensures ReplacePass(s, BlockDelim, true, typeset) == Some(s)
  {
    var r := Scan(s, BlockDelim);
    if exists i :: 0 <= i < |r| && r[i].Span? {
      BlockSpanNeedsFourDollars(s);
    }
    SubstituteNoSpans(r, BlockDelim, true, typeset);
    ScanRoundTrip(s, BlockDelim);
  }

  // ---------------------------------------------------------------------
  // Newlines

  lemma {:induction false} ReplaceNewlinesConcat(a: string, b: string)
    ensures ReplaceNewlines(a + b) == ReplaceNewlines(a) + ReplaceNewlines(b)
  {
    if a == [] {
      assert a + b == b;
    } else {
      assert (a + b)[0] == a[0] && (a + b)[1..] == a[1..] + b;
      ReplaceNewlinesConcat(a[1..], b);
    }
  }

  /** Text without a newline comes through the last step unchanged. */
  lemma {:induction false} ReplaceNewlinesIdentity(s: string)
    requires '\n' !in s
    ensures ReplaceNewlines(s) == s
  {
    if s != [] {
      ReplaceNewlinesIdentity(s[1..]);
      assert [s[0]] + s[1..] == s;
    }
  }

  // ---------------------------------------------------------------------
  // Properties of the whole render

  /** Without a `$`, the whole content is typeset once, in the `block` mode
      the caller chose, with no segmentation. */
  lemma WholeContentTypeset(content: string, block: bool, typeset: Typesetter)
    requires '$' !in content
    ensures typeset(content, block).Some? ==> RenderMath(content, block, typeset) == Markup(typeset(content, block).value)
    ensures typeset(content, block).None? ==> RenderMath(content, block, typeset) == TextContent(content)
  {
  }

  /** When anything fails, the container shows the raw input as text; markup
      is shown only when every typesetter call succeeded. */
  lemma FailureShowsRawContent(content: string, block: bool, typeset: Typesetter)
    ensures RenderMath(content, block, typeset).TextContent? ==> RenderMath(content, block, typeset).text == content
    ensures RenderMath(content, block, typeset).TextContent? <==>
      if '$' in content then
        || ReplacePass(content, BlockDelim, true, typeset).None?
        || ReplacePass(ReplacePass(content, BlockDelim, true, typeset).value, InlineDelim, false, typeset).None?
      else typeset(content, block).None?
  {
  }

  /** A delimited span whose TeX is clean is read as one span. */
  lemma ScanCleanSpan(tex: string, q: string, d: string)
    requires d != [] && CleanTex(tex, d)
    ensures Scan(d + tex + d + q, d) == [Span(tex)] + Scan(q, d)
  {
    var s := d + tex + d + q;
    var k := |d| + |tex|;
    assert s[..|d|] == d;
    assert s[k..k + |d|] == d;
    forall j | |d| <= j < k
      ensures !IsLineTerminator(s[j]) && !OccursAt(s, d, j)
    {
      assert s[j] == tex[j - |d|];
      assert s[j..j + |d|] == (tex + d)[j - |d|..j - |d| + |d|];
      assert !OccursAt(tex + d, d, j - |d|);
    }
    assert IsFirstClose(s, |d|, d, k);
    ScanOpensSpan(s, d, k);
    assert s[|d|..k] == tex;
    assert s[k + |d|..] == q;
  }

  /** TeX without a `$` is clean for either delimiter. */
  lemma DollarFreeIsClean(tex: string, d: string)
    requires d == BlockDelim || d == InlineDelim
    requires '$' !in tex
    requires forall j :: 0 <= j < |tex| ==> !IsLineTerminator(tex[j])
    ensures CleanTex(tex, d)
  {
    forall j | 0 <= j < |tex| ensures !OccursAt(tex + d, d, j) {
      assert (tex + d)[j] == tex[j] != '$' == d[0];
    }
  }

  /** Display before inline: `$$tex$$` is typeset once, in display mode, and
      not read as two empty inline spans around literal text. */
  lemma DisplaySpanTakesPrecedence(tex: string, h: string, block: bool, typeset: Typesetter)
    requires '$' !in tex
    requires forall j :: 0 <= j < |tex| ==> !IsLineTerminator(tex[j])
    requires typeset(tex, true) == Some(h) && '$' !in h
    ensures RenderMath("$$" + tex + "$$", block, typeset) == Markup(ReplaceNewlines(h))
  {
    var s := "$$" + tex + "$$";
    assert s[0] == '$';
    DollarFreeIsClean(tex, BlockDelim);
    ScanCleanSpan(tex, [], BlockDelim);
    assert s + [] == s;
    assert Scan(s, BlockDelim) == [Span(tex)];
    assert Substitute([], true, typeset) == Some([]);
    assert h + [] == h;
    assert ReplacePass(s, BlockDelim, true, typeset) == Some(h);
    ScanLiteralPrefix(h, [], InlineDelim);
    assert Literals(h) + [] == Literals(h);
    assert Scan(h, InlineDelim) == Literals(h);
    SubstituteLiterals(h, false, typeset);
    assert ReplacePass(h, InlineDelim, false, typeset) == Some(h);
  }

  /** Without the display pass running first, the inline pattern would split
      `$$x^2$$` into two empty spans around the literal text `x^2`. */
  lemma InlineAloneSplitsDisplaySpan()
    ensures Scan("$$x^2$$", InlineDelim) == [Span(""), Literal('x'), Literal('^'), Literal('2'), Span("")]
  {
    var s := "$$x^2$$";
    assert IsFirstClose(s, 1, InlineDelim, 1) by { assert OccursAt(s, InlineDelim, 1); }
    ScanOpensSpan(s, InlineDelim, 1);
    var t := s[2..];
    assert t == "x^2" + "$$";
    ScanLiteralPrefix("x^2", "$$", InlineDelim);
    var u := "$$";
    assert IsFirstClose(u, 1, InlineDelim, 1) by { assert OccursAt(u, InlineDelim, 1); }
    ScanOpensSpan(u, InlineDelim, 1);
    assert u[2..] == [];
    assert Literals("x^2") == [Literal('x'), Literal('^'), Literal('2')];
  }

  /** The inline scan of a `$…$` span followed by text without `$`. */
  lemma ScanInlineSpanThenText(tex: string, q: string)
    requires '$' !in tex && '$' !in q
    requires forall j :: 0 <= j < |tex| ==> !IsLineTerminator(tex[j])
    ensures Scan(InlineDelim + tex + InlineDelim + q, InlineDelim) == [Span(tex)] + Literals(q)
  {
    DollarFreeIsClean(tex, InlineDelim);
    ScanCleanSpan(tex, q, InlineDelim);
    ScanLiteralPrefix(q, [], InlineDelim);
    assert q + [] == q;
    assert Literals(q) + [] == Literals(q);
  }

  /** The inline scan of text around one `$…$` span. */
  lemma {:induction false} ScanInlineSpan(p: string, tex: string, q: string)
    requires '$' !in p && '$' !in tex && '$' !in q
    requires forall j :: 0 <= j < |tex| ==> !IsLineTerminator(tex[j])
    ensures Scan(p + "$" + tex + "$" + q, InlineDelim) == Literals(p) + [Span(tex)] + Literals(q)
  {
    var rest := InlineDelim + tex + InlineDelim + q;
    assert p + "$" + tex + "$" + q == p + rest;
    ScanLiteralPrefix(p, rest, InlineDelim);
    ScanInlineSpanThenText(tex, q);
    var lp, lq := Literals(p), Literals(q);
    assert lp + ([Span(tex)] + lq) == lp + [Span(tex)] + lq;
  }

  /** The inline pass over text around one span replaces just the span. */
  lemma InlinePassOverSpan(p: string, tex: string, q: string, h: string, typeset: Typesetter)
    requires '$' !in p && '$' !in tex && '$' !in q
    requires forall j :: 0 <= j < |tex| ==> !IsLineTerminator(tex[j])
    requires typeset(tex, false) == Some(h)
    ensures ReplacePass(p + "$" + tex + "$" + q, InlineDelim, false, typeset) == Some(p + h + q)
  {
    ScanInlineSpan(p, tex, q);
    var lp, lq := Literals(p), Literals(q);
    SubstituteConcat(lp + [Span(tex)], lq, false, typeset);
    SubstituteConcat(lp, [Span(tex)], false, typeset);
    SubstituteLiterals(p, false, typeset);
    SubstituteLiterals(q, false, typeset);
    assert Substitute([], false, typeset) == Some([]);
    assert h + [] == h;
    assert Substitute([Span(tex)], false, typeset) == Some(h);
  }

  /** What the container shows when both passes succeed. */
  lemma RenderBothPasses(content: string, block: bool, typeset: Typesetter, html: string, html2: string)
    requires '$' in content
    requires ReplacePass(content, BlockDelim, true, typeset) == Some(html)
    requires ReplacePass(html, InlineDelim, false, typeset) == Some(html2)
    ensures RenderMath(content, block, typeset) == Markup(ReplaceNewlines(html2))
  {
  }

  lemma TwoDollars(p: string, tex: string, q: string)
    requires '$' !in p && '$' !in tex && '$' !in q
    ensures multiset(p + "$" + tex + "$" + q)['$'] == 2
  {
    assert multiset(p + "$" + tex + "$" + q) == multiset(p) + multiset("$") + multiset(tex) + multiset("$") + multiset(q);
  }

  /** An inline span inside text: the text on both sides is copied unchanged,
      the span is replaced by its inline markup, then every newline of the
      result becomes `<br/>`. */
  lemma InlineSpanInText(p: string, tex: string, q: string, h: string, block: bool, typeset: Typesetter)
    requires '$' !in p && '$' !in tex && '$' !in q
    requires forall j :: 0 <= j < |tex| ==> !IsLineTerminator(tex[j])
    requires typeset(tex, false) == Some(h)
    ensures RenderMath(p + "$" + tex + "$" + q, block, typeset) ==
      Markup(ReplaceNewlines(p) + ReplaceNewlines(h) + ReplaceNewlines(q))
  {
    var s := p + "$" + tex + "$" + q;
    assert s[|p|] == '$';
    TwoDollars(p, tex, q);
    BlockPassIdentity(s, typeset);
    InlinePassOverSpan(p, tex, q, h, typeset);
    RenderBothPasses(s, block, typeset, s, p + h + q);
    ReplaceNewlinesConcat(p + h, q);
    ReplaceNewlinesConcat(p, h);
  }
}
