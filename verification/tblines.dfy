/**
 * `_formatTracebackLines`: the numbered source listing of one frame, with an
 * arrow on the failing line and the variable listing right below it.
 */
module TracebackLines {
  import opened Text
  import opened Gutter
  import opened ExceptionColors

  /** The gutter of line `i`: an arrow and the number on the failing line, the right-justified number elsewhere. */
  function LineGutter(i: int, lnum: int): string
  {
    if i == lnum then ArrowNumber(i, 0) else PlainNumber(i, 0)
  }

  /** One listing line: `tpl_line_em` with the arrow on the failing line, `tpl_line` with the plain number on every other. */
  function NumberedLine(c: TBColors, i: int, lnum: int, line: string): string
  {
    if i == lnum then c.linenoEm + ArrowNumber(i, 0) + c.line + " " + line + c.normal
    else c.lineno + PlainNumber(i, 0) + c.normal + " " + line
  }

  /** Every source line with its gutter, numbered so that position `index` carries `lnum`. */
  function NumberedLines(c: TBColors, lnum: int, index: int, lines: seq<string>): (r: seq<string>)
    ensures |r| == |lines|
  {
    if lines == [] then []
    else NumberedLines(c, lnum, index, lines[..|lines| - 1]) + [NumberedLine(c, lnum - index + (|lines| - 1), lnum, lines[|lines| - 1])]
  }

  /** Line `k` of the listing is source line `k` numbered `n == lnum - index + k`. */
  lemma {:induction false} NumberedLinesAt(c: TBColors, lnum: int, index: int, lines: seq<string>, k: int, n: int)
    requires 0 <= k < |lines| && n == lnum - index + k
    ensures NumberedLines(c, lnum, index, lines)[k] == NumberedLine(c, n, lnum, lines[k])
    decreases |lines|
  {
    if k < |lines| - 1 {
      NumberedLinesAt(c, lnum, index, lines[..|lines| - 1], k, n);
      assert lines[..|lines| - 1][k] == lines[k];
    }
  }

  /** The listing with `lvals` inserted after position `index`, when it is not empty and `index` is in the window. */
  function WithValues(numbered: seq<string>, index: int, lvals: string): seq<string>
  {
    if lvals != "" && 0 <= index < |numbered| then numbered[..index + 1] + [lvals + "\n"] + numbered[index + 1..]
    else numbered
  }

  /** The listing numbered so that position `index` carries the number `lnum`. */
  function Listing(c: TBColors, lnum: int, index: int, lines: seq<string>, lvals: string): seq<string>
  {
    WithValues(NumberedLines(c, lnum, index, lines), index, lvals)
  }

  /** The loop with the counter `i` and the list `res`. */
  method FormatTracebackLines(lnum: int, index: int, lines: seq<string>, c: TBColors, lvals: string) returns (res: seq<string>)
    ensures res == Listing(c, lnum, index, lines, lvals)
  {
    res := [];
    var i := lnum - index;
    for k := 0 to |lines|
      invariant i == lnum - index + k
      invariant res == WithValues(NumberedLines(c, lnum, index, lines[..k]), index, lvals)
    {
      var line := NumberedLine(c, i, lnum, lines[k]);
      ListingExtend(c, lnum, index, lines, lvals, k, i);
      res := res + [line];
      if lvals != "" && i == lnum {
        res := res + [lvals + "\n"];
      }
      i := i + 1;
    }
    assert lines[..|lines|] == lines;
  }

  /** One more iteration of the loop: the listing of the first `k + 1` lines from that of the first `k`. */
  lemma ListingExtend(c: TBColors, lnum: int, index: int, lines: seq<string>, lvals: string, k: nat, i: int)
    requires k < |lines| && i == lnum - index + k
    ensures WithValues(NumberedLines(c, lnum, index, lines[..k + 1]), index, lvals)
         == WithValues(NumberedLines(c, lnum, index, lines[..k]), index, lvals)
            + [NumberedLine(c, i, lnum, lines[k])]
            + (if lvals != "" && i == lnum then [lvals + "\n"] else [])
  {
    var before := NumberedLines(c, lnum, index, lines[..k]);
    var line := NumberedLine(c, i, lnum, lines[k]);
    assert lines[..k + 1][..k] == lines[..k];
    assert line == NumberedLine(c, lnum - index + k, lnum, lines[k]);
    assert NumberedLines(c, lnum, index, lines[..k + 1]) == before + [line];
    WithValuesExtend(before, line, index, lvals);
  }

  /** Appending one numbered line appends it to the listing, followed by `lvals` when it is the failing line. */
  lemma WithValuesExtend(before: seq<string>, line: string, index: int, lvals: string)
    ensures WithValues(before + [line], index, lvals)
         == WithValues(before, index, lvals) + [line] + (if lvals != "" && index == |before| then [lvals + "\n"] else [])
  {
    if lvals != "" && 0 <= index < |before| {
      assert (before + [line])[..index + 1] == before[..index + 1];
      assert (before + [line])[index + 1..] == before[index + 1..] + [line];
    } else if lvals != "" && index == |before| {
      assert (before + [line])[..index + 1] == before + [line];
    }
  }

  // ---------------------------------------------------------------------------
  // Properties

  /**
   * One listing line per source line, numbered consecutively so that the
   * line at `index` carries `lnum`; exactly one extra line, `lvals`, right
   * after the failing line, and only when `lvals` is not empty and the failing
   * line is in the window.
   */
  lemma ListingLayout(c: TBColors, lnum: int, index: int, lines: seq<string>, lvals: string)
    ensures var r := Listing(c, lnum, index, lines, lvals);
      var extra := lvals != "" && 0 <= index < |lines|;
      && |r| == |lines| + (if extra then 1 else 0)
      && (forall k :: 0 <= k < |lines| && (!extra || k <= index) ==>
            r[k] == NumberedLine(c, lnum - index + k, lnum, lines[k]))
      && (extra ==> r[index + 1] == lvals + "\n")
      && (forall k :: 0 <= k < |lines| && extra && k > index ==>
            r[k + 1] == NumberedLine(c, lnum - index + k, lnum, lines[k]))
  {
    NumberedLinesAll(c, lnum, index, lines);
    WithValuesLayout(NumberedLines(c, lnum, index, lines), index, lvals);
  }

  lemma NumberedLinesAll(c: TBColors, lnum: int, index: int, lines: seq<string>)
    ensures forall k :: 0 <= k < |lines| ==> NumberedLines(c, lnum, index, lines)[k] == NumberedLine(c, lnum - index + k, lnum, lines[k])
  {
    forall k | 0 <= k < |lines|
      ensures NumberedLines(c, lnum, index, lines)[k] == NumberedLine(c, lnum - index + k, lnum, lines[k])
    {
      NumberedLinesAt(c, lnum, index, lines, k, lnum - index + k);
    }
  }

  /** `WithValues` keeps every numbered line, shifting those after `index` down by one for the inserted `lvals`. */
  lemma WithValuesLayout(numbered: seq<string>, index: int, lvals: string)
    ensures var r := WithValues(numbered, index, lvals);
      var extra := lvals != "" && 0 <= index < |numbered|;
      && |r| == |numbered| + (if extra then 1 else 0)
      && (forall k :: 0 <= k < |numbered| && (!extra || k <= index) ==> r[k] == numbered[k])
      && (extra ==> r[index + 1] == lvals + "\n")
      && (forall k :: 0 <= k < |numbered| && extra && k > index ==> r[k + 1] == numbered[k])
  {
  }

  /**
   * The gutter is seven columns wide (wider only for a longer number), ends
   * with the line number, and shows an arrow exactly on the failing line, as
   * long as the number leaves room for one.
   */
  lemma GutterMarksFailingLine(i: int, lnum: int)
    ensures var s := IntToString(i); var g := LineGutter(i, lnum);
      && |g| == Max(NUMBERS_WIDTH, |s|)
      && g[|g| - |s|..] == s
      && ('>' in g <==> i == lnum && |s| < NUMBERS_WIDTH)
  {
    var e: string := "";
    GutterWidths(i, 0);
    if i == lnum {
      ArrowColumns(e, i);
      assert e + ArrowNumber(i, 0) == ArrowNumber(i, 0);
    } else {
      PlainColumns(e, i);
      assert e + PlainNumber(i, 0) == PlainNumber(i, 0);
    }
  }

  /** Without colours a listing line is the gutter, a space and the source line. */
  lemma NumberedLineNoColor(i: int, lnum: int, line: string)
    ensures NumberedLine(NO_COLOR, i, lnum, line) == LineGutter(i, lnum) + " " + line
  {
    var g := LineGutter(i, lnum);
    var e: string := "";
    if i == lnum {
      assert NumberedLine(NO_COLOR, i, lnum, line) == e + g + e + " " + line + e;
    } else {
      assert NumberedLine(NO_COLOR, i, lnum, line) == e + g + e + " " + line;
    }
    assert e + g == g && line + e == line;
    assert e + " " == " " && " " + line + e == " " + line;
  }
}
