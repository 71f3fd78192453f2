/** The font demo's glyph table: every code point of every range of the
    grabbed bitmap font is drawn in turn, left to right, wrapping to a new line
    near the right edge of the display. The font's glyph advances, its line
    height and the display width come from the native library and are
    parameters here. */
module FontDemo {
  import Font

  /** The ranges the demo grabs its bitmap font with: ASCII, Latin 1,
      Latin Extended-A and the Euro sign. */
  const RANGES: seq<Font.Pair> := [[0x0020, 0x007F], [0x00A1, 0x00FF], [0x0100, 0x017F], [0x20AC, 0x20AC]]

  /** The left margin, the right margin and the first pen position's x. */
  const MARGIN := 10
  /** The first line's y. */
  const TOP := 300

  /** What the native library reports about the font and the display. */
  datatype Metrics = Metrics(advance: int -> int, displayWidth: int, lineHeight: int)

  /** The pen position the next glyph is drawn at. */
  datatype Pen = Pen(x: int, y: int)

  /** One DrawGlyph call: the code point and where it is drawn. */
  datatype Glyph = Glyph(codepoint: int, x: int, y: int)

  /** The code points start, start + 1, ..., stop - 1 (stop is exclusive). */
  function Span(start: int, stop: int): seq<int>
    decreases stop - start
  {
    if start < stop then [start] + Span(start + 1, stop) else []
  }

  /** The number of code points a range contributes; none when stop <= start. */
  function Width(start: int, stop: int): nat
  {
    if start < stop then stop - start else 0
  }

  lemma {:induction false} SpanAt(start: int, stop: int)
    ensures |Span(start, stop)| == Width(start, stop)
    ensures forall i :: 0 <= i < |Span(start, stop)| ==> Span(start, stop)[i] == start + i
    decreases stop - start
  {
    if start < stop {
      SpanAt(start + 1, stop);
    }
  }

  /** The code points of all ranges, range after range in list order. */
  function CodePoints(ranges: seq<Font.Pair>): seq<int>
  {
    if ranges == [] then [] else Span(ranges[0][0], ranges[0][1]) + CodePoints(ranges[1..])
  }

  /** The code points from range i on: those of range i, then the rest. */
  lemma CodePointsFrom(ranges: seq<Font.Pair>, i: nat)
    requires i < |ranges|
    ensures CodePoints(ranges[i..]) == Span(ranges[i][0], ranges[i][1]) + CodePoints(ranges[i + 1..])
  {
    assert ranges[i..][1..] == ranges[i + 1..];
  }

  /** The sum over the ranges of stop - start (of 0 for an empty range). */
  function GlyphCount(ranges: seq<Font.Pair>): nat
  {
    if ranges == [] then 0 else Width(ranges[0][0], ranges[0][1]) + GlyphCount(ranges[1..])
  }

  /** The demo draws one glyph per code point: the sum of stop - start. */
  lemma {:induction false} CodePointsCount(ranges: seq<Font.Pair>)
    ensures |CodePoints(ranges)| == GlyphCount(ranges)
  {
    if ranges != [] {
      SpanAt(ranges[0][0], ranges[0][1]);
      CodePointsCount(ranges[1..]);
    }
  }

  /** Stop is exclusive: the one-code-point Euro range [0x20AC, 0x20AC] draws
      nothing, and the demo's ranges draw 95 + 94 + 127 + 0 glyphs. */
  lemma DemoRanges()
    ensures Span(0x20AC, 0x20AC) == []
    ensures 0x20AC !in CodePoints(RANGES)
    ensures |CodePoints(RANGES)| == 316
  {
    var spans := [Span(0x20, 0x7F), Span(0xA1, 0xFF), Span(0x100, 0x17F)];
    SpanAt(0x20, 0x7F);
    SpanAt(0xA1, 0xFF);
    SpanAt(0x100, 0x17F);
    assert CodePoints(RANGES[3..]) == [];
    assert CodePoints(RANGES) == spans[0] + spans[1] + spans[2];
  }

  /** Where the pen goes after a glyph of the given advance: right by the
      advance, or back to the left margin of the next line when that passes
      the right margin. */
  function Advance(pen: Pen, advance: int, font: Metrics): (next: Pen)
    ensures next.y == pen.y || (next.x == MARGIN && next.y == pen.y + font.lineHeight)
    ensures font.displayWidth >= 2 * MARGIN ==> next.x <= font.displayWidth - MARGIN
  {
    var x := pen.x + advance;
    if x > font.displayWidth - MARGIN then Pen(MARGIN, pen.y + font.lineHeight) else Pen(x, pen.y)
  }

  /** The glyphs drawn for the code points, the first one at the pen. */
  function Layout(cps: seq<int>, pen: Pen, font: Metrics): (glyphs: seq<Glyph>)
    ensures |glyphs| == |cps|
  {
    if cps == [] then []
    else [Glyph(cps[0], pen.x, pen.y)] + Layout(cps[1..], Advance(pen, font.advance(cps[0]), font), font)
  }

  /** The pen after drawing the code points. */
  function PenAfter(cps: seq<int>, pen: Pen, font: Metrics): Pen
  {
    if cps == [] then pen else PenAfter(cps[1..], Advance(pen, font.advance(cps[0]), font), font)
  }

  /** Laying out a code point and then the rest: its glyph at the pen, then
      the rest from where Advance puts the pen. */
  lemma LayoutCons(c: int, cps: seq<int>, pen: Pen, font: Metrics)
    ensures Layout([c] + cps, pen, font)
      == [Glyph(c, pen.x, pen.y)] + Layout(cps, Advance(pen, font.advance(c), font), font)
    ensures PenAfter([c] + cps, pen, font) == PenAfter(cps, Advance(pen, font.advance(c), font), font)
  {
    assert ([c] + cps)[1..] == cps;
  }

  /** One pass of the demo's inner loop: drawing code point index at the pen
      and moving the pen on leaves the same layout and final pen to come. */
  lemma DrawStep(glyphs: seq<Glyph>, index: int, stop: int, later: seq<int>, pen: Pen, font: Metrics)
    requires index < stop
    ensures var next := Advance(pen, font.advance(index), font);
      && (glyphs + [Glyph(index, pen.x, pen.y)]) + Layout(Span(index + 1, stop) + later, next, font)
         == glyphs + Layout(Span(index, stop) + later, pen, font)
      && PenAfter(Span(index + 1, stop) + later, next, font) == PenAfter(Span(index, stop) + later, pen, font)
  {
    var rest := Span(index + 1, stop) + later;
    var g, next := Glyph(index, pen.x, pen.y), Advance(pen, font.advance(index), font);
    assert Span(index, stop) == [index] + Span(index + 1, stop);
    assert Span(index, stop) + later == [index] + rest;
    LayoutCons(index, rest, pen, font);
    assert (glyphs + [g]) + Layout(rest, next, font) == glyphs + ([g] + Layout(rest, next, font));
  }

  /** One glyph per code point, in order, the first at the starting pen, and
      each next glyph where Advance puts the pen after the one before. */
  lemma {:induction false} LayoutSteps(cps: seq<int>, pen: Pen, font: Metrics)
    ensures var g := Layout(cps, pen, font);
      && |g| == |cps|
      && (forall k :: 0 <= k < |g| ==> g[k].codepoint == cps[k])
      && (|g| > 0 ==> g[0].x == pen.x && g[0].y == pen.y)
      && (forall k :: 0 <= k < |g| - 1 ==>
            Pen(g[k + 1].x, g[k + 1].y) == Advance(Pen(g[k].x, g[k].y), font.advance(cps[k]), font))
  {
    if cps != [] {
      var next := Advance(pen, font.advance(cps[0]), font);
      LayoutSteps(cps[1..], next, font);
      var g, rest := Layout(cps, pen, font), Layout(cps[1..], next, font);
      assert g == [Glyph(cps[0], pen.x, pen.y)] + rest;
      forall k | 0 <= k < |g| - 1
        ensures Pen(g[k + 1].x, g[k + 1].y) == Advance(Pen(g[k].x, g[k].y), font.advance(cps[k]), font)
      {
        if k > 0 {
          assert g[k] == rest[k - 1] && g[k + 1] == rest[k];
        }
      }
    }
  }

  /** Each next glyph is drawn where the pen moves after the one before: the
      advance further right on the same line when that stays within the right
      margin, otherwise at the left margin one line height down. */
  lemma LayoutWraps(cps: seq<int>, pen: Pen, font: Metrics, k: nat)
    requires k + 1 < |cps|
    ensures var g := Layout(cps, pen, font);
      var x := g[k].x + font.advance(cps[k]);
      && (x <= font.displayWidth - MARGIN ==> g[k + 1].x == x && g[k + 1].y == g[k].y)
      && (x > font.displayWidth - MARGIN ==> g[k + 1].x == MARGIN && g[k + 1].y == g[k].y + font.lineHeight)
  {
    LayoutSteps(cps, pen, font);
  }

  /** On a display at least 20 wide with a non-negative line height, starting
      inside the right margin: every glyph starts inside the right margin, no
      glyph is above the start, lines only go down, and the pen ends inside the
      right margin and not above the start. */
  lemma {:induction false} LayoutBounds(cps: seq<int>, pen: Pen, font: Metrics)
    requires font.displayWidth >= 2 * MARGIN && font.lineHeight >= 0
    requires pen.x <= font.displayWidth - MARGIN
    ensures forall k :: 0 <= k < |Layout(cps, pen, font)| ==>
      Layout(cps, pen, font)[k].x <= font.displayWidth - MARGIN && Layout(cps, pen, font)[k].y >= pen.y
    ensures forall i, j :: 0 <= i <= j < |Layout(cps, pen, font)| ==>
      Layout(cps, pen, font)[i].y <= Layout(cps, pen, font)[j].y
    ensures PenAfter(cps, pen, font).x <= font.displayWidth - MARGIN
    ensures PenAfter(cps, pen, font).y >= pen.y
  {
    if cps != [] {
      var next := Advance(pen, font.advance(cps[0]), font);
      LayoutBounds(cps[1..], next, font);
      var g, rest := Layout(cps, pen, font), Layout(cps[1..], next, font);
      assert g == [Glyph(cps[0], pen.x, pen.y)] + rest;
      assert next.y >= pen.y;
      forall k | 0 <= k < |g|
        ensures g[k].x <= font.displayWidth - MARGIN && g[k].y >= pen.y
      {
        if k > 0 {
          assert g[k] == rest[k - 1];
        }
      }
      forall i, j | 0 <= i <= j < |g|
        ensures g[i].y <= g[j].y
      {
        if i > 0 {
          assert g[i] == rest[i - 1] && g[j] == rest[j - 1];
        }
      }
    }
  }

  /** What the demo's layout adds up to: one glyph per code point of the
      ranges, in order, and on a display at least 20 wide with a non-negative
      line height every glyph and the final pen inside the right margin and not
      above the first line. */
  lemma DemoLayout(ranges: seq<Font.Pair>, font: Metrics)
    ensures var g := Layout(CodePoints(ranges), Pen(MARGIN, TOP), font);
      |g| == |CodePoints(ranges)| == GlyphCount(ranges)
    ensures forall k :: 0 <= k < |Layout(CodePoints(ranges), Pen(MARGIN, TOP), font)| ==>
      Layout(CodePoints(ranges), Pen(MARGIN, TOP), font)[k].codepoint == CodePoints(ranges)[k]
    ensures font.displayWidth >= 2 * MARGIN && font.lineHeight >= 0 ==>
      var g := Layout(CodePoints(ranges), Pen(MARGIN, TOP), font);
      var pen := PenAfter(CodePoints(ranges), Pen(MARGIN, TOP), font);
      && pen.x <= font.displayWidth - MARGIN && pen.y >= TOP
      && (forall k :: 0 <= k < |g| ==> g[k].x <= font.displayWidth - MARGIN && g[k].y >= TOP)
  {
    var all, start := CodePoints(ranges), Pen(MARGIN, TOP);
    CodePointsCount(ranges);
    LayoutSteps(all, start, font);
    if font.displayWidth >= 2 * MARGIN && font.lineHeight >= 0 {
      LayoutBounds(all, start, font);
    }
  }

  /** The glyph loop of the demo: for each range in order, for each code point
      from start up to stop - 1, draw the glyph at the pen, advance x by the
      glyph's advance, and wrap to a new line once x passes the right margin. */
  method DrawGlyphs(ranges: seq<Font.Pair>, font: Metrics) returns (glyphs: seq<Glyph>, pen: Pen)
    ensures glyphs == Layout(CodePoints(ranges), Pen(MARGIN, TOP), font)
    ensures pen == PenAfter(CodePoints(ranges), Pen(MARGIN, TOP), font)
    ensures |glyphs| == |CodePoints(ranges)| == GlyphCount(ranges)
    ensures forall k :: 0 <= k < |glyphs| ==> glyphs[k].codepoint == CodePoints(ranges)[k]
    ensures font.displayWidth >= 2 * MARGIN && font.lineHeight >= 0 ==>
      && pen.x <= font.displayWidth - MARGIN && pen.y >= TOP
      && (forall k :: 0 <= k < |glyphs| ==> glyphs[k].x <= font.displayWidth - MARGIN && glyphs[k].y >= TOP)
  {
    ghost var all := CodePoints(ranges);
    ghost var start := Pen(MARGIN, TOP);
    var x := MARGIN;
    var y := TOP;
    glyphs := [];
    for rangeVal := 0 to |ranges|
      invariant glyphs + Layout(CodePoints(ranges[rangeVal..]), Pen(x, y), font) == Layout(all, start, font)
      invariant PenAfter(CodePoints(ranges[rangeVal..]), Pen(x, y), font) == PenAfter(all, start, font)
    {
      var first := ranges[rangeVal][0];
      var stop := ranges[rangeVal][1];
      ghost var later := CodePoints(ranges[rangeVal + 1..]);
      CodePointsFrom(ranges, rangeVal);
      var index := first;
      while index < stop
        invariant glyphs + Layout(Span(index, stop) + later, Pen(x, y), font) == Layout(all, start, font)
        invariant PenAfter(Span(index, stop) + later, Pen(x, y), font) == PenAfter(all, start, font)
        decreases stop - index
      {
        var width := font.advance(index);
        ghost var pen1 := Advance(Pen(x, y), width, font);
        DrawStep(glyphs, index, stop, later, Pen(x, y), font);
        glyphs := glyphs + [Glyph(index, x, y)];
        x := x + width;
        if x > font.displayWidth - MARGIN {
          x := MARGIN;
          y := y + font.lineHeight;
        }
        index := index + 1;
        assert Pen(x, y) == pen1;
      }
      assert Span(index, stop) + later == later;
    }
    pen := Pen(x, y);
    DemoLayout(ranges, font);
  }
}
