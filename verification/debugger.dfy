/**
 * The debugger's source display: the breakpoint gutter of one line, the
 * header and window of a stack entry, the `list` command with its cursor,
 * and the frame stack a post-mortem session starts from.
 */
module Debugger {
  import opened Text
  import opened Gutter
  import opened ExceptionColors
  import SourceWindows
  import TracebackLines

  /** A breakpoint as the display sees it: its number and whether it is enabled. */
  datatype Breakpoint = Breakpoint(number: int, enabled: bool)

  /** The breakpoints at each `(file, line)`, oldest first (`bdb.Breakpoint.bplist`). */
  type Breaks = map<(string, int), seq<Breakpoint>>

  /**
   * A frame as the debugger reads it: its file and code name, its current
   * line, and the repr of its `__return__` and `__args__` locals when present.
   */
  datatype PdbFrame = PdbFrame(
    file: string,
    name: string,
    fLineno: int,
    returnRepr: Option<string>,
    argsRepr: Option<string>)

  // ---------------------------------------------------------------------------
  // Pdb.__format_line

  /** The breakpoint shown at a line: the last one set there, if any. */
  function LastBreak(breaks: Breaks, file: string, lineno: int): Option<Breakpoint>
  {
    if (file, lineno) in breaks && |breaks[(file, lineno)]| > 0 then
      var bps := breaks[(file, lineno)];
      Some(bps[|bps| - 1])
    else None
  }

  /** `bp_mark`: the number of that breakpoint, or nothing. */
  function BreakMark(breaks: Breaks, file: string, lineno: int): string
  {
    var bp := LastBreak(breaks, file, lineno);
    if bp.Some? then IntToString(bp.value.number) else ""
  }

  /** `bp_mark_color`: enabled or disabled colour, or nothing without a breakpoint. */
  function BreakColor(c: TBColors, breaks: Breaks, file: string, lineno: int): string
  {
    var bp := LastBreak(breaks, file, lineno);
    if bp.None? then "" else if bp.value.enabled then c.breakpointEnabled else c.breakpointDisabled
  }

  /**
   * `tpl_line_em` filled in with the arrowed number on the current line,
   * `tpl_line` with the number right-justified elsewhere, the number taking
   * the columns a breakpoint mark of `markWidth` leaves.
   */
  function LineBody(c: TBColors, lineno: int, markWidth: int, line: string, arrow: bool): string
  {
    if arrow then c.linenoEm + ArrowNumber(lineno, markWidth) + " " + c.line + line + c.normal
    else c.lineno + PlainNumber(lineno, markWidth) + " " + c.normal + line
  }

  /** One listed line: the coloured breakpoint mark, then the numbered line. */
  function FormatLine(c: TBColors, breaks: Breaks, file: string, lineno: int, line: string, arrow: bool): string
  {
    var mark := BreakMark(breaks, file, lineno);
    BreakColor(c, breaks, file, lineno) + mark + LineBody(c, lineno, |mark|, line, arrow)
  }

  /**
   * The line starts with the colour and number of the last breakpoint set on
   * it, in the enabled colour unless that breakpoint is disabled.
   */
  lemma FormatLineShowsLastBreak(c: TBColors, breaks: Breaks, file: string, lineno: int, line: string, arrow: bool)
    requires (file, lineno) in breaks && |breaks[(file, lineno)]| > 0
    ensures var bps := breaks[(file, lineno)]; var bp := bps[|bps| - 1];
      var shown := (if bp.enabled then c.breakpointEnabled else c.breakpointDisabled) + IntToString(bp.number);
      shown <= FormatLine(c, breaks, file, lineno, line, arrow)
  {
    assert LastBreak(breaks, file, lineno) == Some(breaks[(file, lineno)][|breaks[(file, lineno)]| - 1]);
    FormatLineParts(c, breaks, file, lineno, line, arrow);
    PrefixOfJoin(BreakColor(c, breaks, file, lineno) + BreakMark(breaks, file, lineno),
      LineBody(c, lineno, |BreakMark(breaks, file, lineno)|, line, arrow));
  }

  /** A listed line is the breakpoint colour, the mark and the body. */
  lemma FormatLineParts(c: TBColors, breaks: Breaks, file: string, lineno: int, line: string, arrow: bool)
    ensures FormatLine(c, breaks, file, lineno, line, arrow)
         == BreakColor(c, breaks, file, lineno) + BreakMark(breaks, file, lineno)
            + LineBody(c, lineno, |BreakMark(breaks, file, lineno)|, line, arrow)
  {
  }

  /** Without colours the body is the number, a space and the line. */
  lemma LineBodyNoColor(lineno: int, markWidth: int, line: string, arrow: bool)
    ensures LineBody(NO_COLOR, lineno, markWidth, line, arrow)
         == (if arrow then ArrowNumber(lineno, markWidth) else PlainNumber(lineno, markWidth)) + " " + line
  {
    if arrow {
      DropEmpty3(NO_COLOR.linenoEm, ArrowNumber(lineno, markWidth), " ", NO_COLOR.line, line, NO_COLOR.normal);
    } else {
      DropEmpty3(NO_COLOR.lineno, PlainNumber(lineno, markWidth), " ", NO_COLOR.normal, line, "");
    }
  }

  /** The gutter text of a line without colours: mark and number. */
  function PlainGutter(breaks: Breaks, file: string, lineno: int, arrow: bool): string
  {
    var mark := BreakMark(breaks, file, lineno);
    mark + (if arrow then ArrowNumber(lineno, |mark|) else PlainNumber(lineno, |mark|))
  }

  lemma NoArrowInMark(breaks: Breaks, file: string, lineno: int)
    ensures '>' !in BreakMark(breaks, file, lineno)
  {
    var bp := LastBreak(breaks, file, lineno);
    if bp.Some? {
      NoArrowInNumber(bp.value.number);
    }
  }

  /** Without colours a line is the gutter, a space and the source line. */
  lemma FormatLineNoColor(breaks: Breaks, file: string, lineno: int, line: string, arrow: bool)
    ensures FormatLine(NO_COLOR, breaks, file, lineno, line, arrow) == PlainGutter(breaks, file, lineno, arrow) + " " + line
  {
    FormatLineParts(NO_COLOR, breaks, file, lineno, line, arrow);
    LineBodyNoColor(lineno, |BreakMark(breaks, file, lineno)|, line, arrow);
    DropColour(BreakColor(NO_COLOR, breaks, file, lineno), BreakMark(breaks, file, lineno),
      if arrow then ArrowNumber(lineno, |BreakMark(breaks, file, lineno)|) else PlainNumber(lineno, |BreakMark(breaks, file, lineno)|),
      line);
  }

  /** An empty colour before the mark leaves the mark, the number, a space and the line. */
  lemma DropColour(colour: string, mark: string, num: string, line: string)
    requires colour == ""
    ensures colour + mark + (num + " " + line) == mark + num + " " + line
  {
  }

  /**
   * The gutter starts with the breakpoint mark; mark and number together
   * fill seven columns whenever they fit, and the number ends the gutter
   * unless the mark alone is wider; the gutter holds an arrow exactly on the
   * current line when mark and number leave a column for it.
   */
  lemma GutterColumns(breaks: Breaks, file: string, lineno: int, arrow: bool)
    ensures var g := PlainGutter(breaks, file, lineno, arrow);
      var mark := BreakMark(breaks, file, lineno);
      && g[..|mark|] == mark
      && (|mark| <= NUMBERS_WIDTH ==> |IntToString(lineno)| <= |g| && g[|g| - |IntToString(lineno)|..] == IntToString(lineno))
      && (|mark| + |IntToString(lineno)| <= NUMBERS_WIDTH ==> |g| == NUMBERS_WIDTH)
      && ('>' in g <==> arrow && |mark| + |IntToString(lineno)| < NUMBERS_WIDTH)
  {
    NoArrowInMark(breaks, file, lineno);
    if arrow {
      ArrowColumns(BreakMark(breaks, file, lineno), lineno);
    } else {
      PlainColumns(BreakMark(breaks, file, lineno), lineno);
    }
  }

  // ---------------------------------------------------------------------------
  // Pdb.format_stack_entry

  /** The name shown for a frame; code without a name is a lambda. */
  function ShownName(frame: PdbFrame): (name: string)
    ensures name != ""
  {
    if frame.name != "" then frame.name else "<lambda>"
  }

  /** `tpl_call` filled in: `in name(args)`; nothing for module-level code, named `?`. */
  function EntryCall(c: TBColors, frame: PdbFrame): string
  {
    var func := ShownName(frame);
    if func == "?" then ""
    else "in " + c.vName + func + c.valEm + (if frame.argsRepr.Some? then frame.argsRepr.value else "()") + c.normal
  }

  /** The return-value line, when the frame has one, then the file and call line. */
  function EntryHeader(c: TBColors, file: string, frame: PdbFrame): string
  {
    (if frame.returnRepr.Some? then frame.returnRepr.value + "\n" else "")
      + c.filenameEm + file + c.normal + " " + EntryCall(c, frame) + "\n"
  }

  /** Where the window starts: centred on the line, then clamped to the top and to the end of the file. */
  function EntryStart(fileLen: int, lineno: int, context: int): int
  {
    Min(Max(lineno - 1 - context / 2, 0), fileLen - context)
  }

  /** The window lines, numbered from `start + 1`, with the arrow on `lineno`. */
  function EntryLines(c: TBColors, breaks: Breaks, file: string, start: int, lineno: int, window: seq<string>): (r: seq<string>)
    ensures |r| == |window|
  {
    if window == [] then []
    else
      var n := start + |window|;
      EntryLines(c, breaks, file, start, lineno, window[..|window| - 1]) + [FormatLine(c, breaks, file, n, window[|window| - 1], n == lineno)]
  }

  /** One more window line is numbered `n`, one past the previous ones. */
  lemma EntryLinesSnoc(c: TBColors, breaks: Breaks, file: string, start: int, lineno: int, window: seq<string>, line: string, n: int)
    requires n == start + |window| + 1
    ensures EntryLines(c, breaks, file, start, lineno, window + [line])
         == EntryLines(c, breaks, file, start, lineno, window) + [FormatLine(c, breaks, file, n, line, n == lineno)]
  {
    assert (window + [line])[..|window|] == window;
  }

  lemma ConcatStep(ret: string, ret0: string, before: seq<string>, shown: string)
    requires ret == ret0 + Concat(before)
    ensures ret + shown == ret0 + Concat(before + [shown])
  {
    ConcatSnoc(before, shown);
  }

  /** Line `k` of the window is shown as line `n == start + 1 + k`, with the arrow exactly when that is `lineno`. */
  lemma {:induction false} EntryLinesNumbered(c: TBColors, breaks: Breaks, file: string, start: int, lineno: int, window: seq<string>, k: nat, n: int)
    requires k < |window| && n == start + 1 + k
    ensures EntryLines(c, breaks, file, start, lineno, window)[k] == FormatLine(c, breaks, file, n, window[k], n == lineno)
    decreases |window|
  {
    if k < |window| - 1 {
      EntryLinesNumbered(c, breaks, file, start, lineno, window[..|window| - 1], k, n);
      assert window[..|window| - 1][k] == window[k];
    }
  }

  /** The source lines a stack entry shows. */
  function EntryWindow(lines: seq<string>, lineno: int, context: int): seq<string>
  {
    var start := EntryStart(|lines|, lineno, context);
    PySlice(lines, start, start + context)
  }

  /** What `format_stack_entry` returns for `(frame, lineno)`. */
  function StackEntryText(c: TBColors, breaks: Breaks, canonic: string -> string, cache: map<string, seq<string>>,
                          frame: PdbFrame, lineno: int, context: int): string
  {
    var file := canonic(frame.file);
    var lines := SourceWindows.GetLines(cache, file);
    EntryHeader(c, file, frame)
      + Concat(EntryLines(c, breaks, file, EntryStart(|lines|, lineno, context), lineno, EntryWindow(lines, lineno, context)))
  }

  /**
   * In a file of at least `context` lines the window is exactly `context`
   * consecutive lines inside the file, and it shows the line itself whenever
   * that line exists.
   */
  lemma EntryWindowInFile(lines: seq<string>, lineno: int, context: int)
    requires 0 <= context <= |lines|
    ensures var start := EntryStart(|lines|, lineno, context);
      && 0 <= start && start + context <= |lines|
      && EntryWindow(lines, lineno, context) == lines[start..start + context]
      && (1 <= lineno <= |lines| && context > 0 ==> start < lineno <= start + context)
  {
    var start := EntryStart(|lines|, lineno, context);
    PySliceNatural(lines, start, start + context);
  }

  /**
   * In a file shorter than `context` the start goes negative and the slice
   * counts it from the end of the file: only the last `2n - context` lines
   * (none at all when that is not positive) are shown, and they are numbered
   * from `n - context + 1`, which is zero or below.
   */
  lemma EntryWindowShortFile(lines: seq<string>, lineno: int, context: int)
    requires |lines| < context
    ensures var n := |lines|;
      && EntryStart(n, lineno, context) == n - context
      && EntryWindow(lines, lineno, context) == lines[Max(2 * n - context, 0)..]
  {
  }

  /** A four-line file with a context of five shows only its last line, numbered 0. */
  lemma EntryWindowShortFileExample(lines: seq<string>, lineno: int)
    requires |lines| == 4
    ensures EntryWindow(lines, lineno, 5) == [lines[3]]
    ensures EntryStart(|lines|, lineno, 5) + 1 == 0
  {
    EntryWindowShortFile(lines, lineno, 5);
  }

  /**
   * The header: the return value's repr line comes first when there is one,
   * then the file and, unless the code is named `?`, `in` and the name
   * (`<lambda>` for a nameless code) with its arguments, `()` by default.
   */
  lemma EntryHeaderNoColor(file: string, frame: PdbFrame)
    ensures var rv := if frame.returnRepr.Some? then frame.returnRepr.value + "\n" else "";
      var args := if frame.argsRepr.Some? then frame.argsRepr.value else "()";
      var name := if frame.name == "" then "<lambda>" else frame.name;
      EntryHeader(NO_COLOR, file, frame) == rv + file + " " + (if name == "?" then "" else "in " + name + args) + "\n"
  {
    EntryCallNoColor(frame);
    DropEmpty2(if frame.returnRepr.Some? then frame.returnRepr.value + "\n" else "", NO_COLOR.filenameEm, file, NO_COLOR.normal,
      " ", EntryCall(NO_COLOR, frame), "\n");
  }

  lemma EntryCallNoColor(frame: PdbFrame)
    ensures var args := if frame.argsRepr.Some? then frame.argsRepr.value else "()";
      var name := if frame.name == "" then "<lambda>" else frame.name;
      EntryCall(NO_COLOR, frame) == if name == "?" then "" else "in " + name + args
  {
    if ShownName(frame) != "?" {
      DropEmptyAround("in ", NO_COLOR.vName, ShownName(frame), NO_COLOR.valEm,
        if frame.argsRepr.Some? then frame.argsRepr.value else "()", NO_COLOR.normal);
    }
  }

  // ---------------------------------------------------------------------------
  // Pdb.do_list

  /** The argument of `list` once evaluated: nothing, a line number, a pair, or something else. */
  datatype ListArg = NoArg | IntArg(x: int) | PairArg(first: int, last: int) | Malformed(repr: string)

  /**
   * The first and last line to list: a pair whose second member is below the
   * first counts lines from the first; a number lists around it; no argument
   * continues after the cursor, or lists around the frame's line when there
   * is no cursor. Nothing for an argument that does not evaluate to these.
   */
  function ListBounds(arg: ListArg, cursor: Option<int>, fLineno: int): Option<(int, int)>
  {
    match arg
    case Malformed(_) => None
    case PairArg(first, last) => Some((first, if last < first then first + last else last))
    case IntArg(x) => Some((Max(1, x - 5), Max(1, x - 5) + 10))
    case NoArg =>
      var first := if cursor.None? then Max(1, fLineno - 5) else cursor.value + 1;
      Some((first, first + 10))
  }

  /** Line `n` of `lines`, counted from 1, or the empty string outside them. */
  function LineAt(lines: seq<string>, n: int): string
  {
    if 1 <= n <= |lines| then lines[n - 1] else ""
  }

  /** `linecache.getline`: line `n` of the cached file. */
  function GetLine(cache: map<string, seq<string>>, file: string, n: int): string
  {
    LineAt(SourceWindows.GetLines(cache, file), n)
  }

  /** The lines `n` to `last` of the file, up to the first missing one. */
  function ListedSource(cache: map<string, seq<string>>, file: string, n: int, last: int): seq<string>
    decreases last + 1 - n
  {
    if n > last || GetLine(cache, file, n) == "" then []
    else [GetLine(cache, file, n)] + ListedSource(cache, file, n + 1, last)
  }

  /** What `list` shows for `first` to `last`: those lines numbered from `first`, the arrow on `current`. */
  function ListedLines(c: TBColors, breaks: Breaks, cache: map<string, seq<string>>, file: string, current: int, first: int, last: int): seq<string>
  {
    EntryLines(c, breaks, file, first - 1, current, ListedSource(cache, file, first, last))
  }

  /** The listing never holds more than `last - first + 1` lines. */
  lemma {:induction false} ListedSourceBound(cache: map<string, seq<string>>, file: string, first: int, last: int)
    ensures |ListedSource(cache, file, first, last)| <= Max(last - first + 1, 0)
    decreases last + 1 - first
  {
    if first <= last && GetLine(cache, file, first) != "" {
      ListedSourceBound(cache, file, first + 1, last);
    }
  }

  /** The `k`-th listed line is line `n == first + k` of the file, and it is not missing. */
  lemma {:induction false} ListedSourceAt(cache: map<string, seq<string>>, file: string, first: int, last: int, k: nat, n: int)
    requires k < |ListedSource(cache, file, first, last)| && n == first + k
    ensures ListedSource(cache, file, first, last)[k] == GetLine(cache, file, n) != ""
    decreases k
  {
    assert first <= last && GetLine(cache, file, first) != "";
    if k > 0 {
      ListedSourceAt(cache, file, first + 1, last, k - 1, n);
    }
  }

  /** A listing of `len` lines that is shorter than its range stops at line `n`, the missing one right after it. */
  lemma {:induction false} ListedSourceStop(cache: map<string, seq<string>>, file: string, first: int, last: int, len: nat, n: int)
    requires len == |ListedSource(cache, file, first, last)| && n == first + len
    ensures n <= last ==> GetLine(cache, file, n) == ""
    decreases last + 1 - first
  {
    if first <= last && GetLine(cache, file, first) != "" {
      ListedSourceStop(cache, file, first + 1, last, len - 1, n);
    }
  }

  /**
   * Listed line `k` is line `n == first + k` of the file, present there,
   * through `__format_line` with the arrow exactly when it is `current`.
   */
  lemma ListedLineAt(c: TBColors, breaks: Breaks, cache: map<string, seq<string>>, file: string, current: int, first: int, last: int, k: nat, n: int)
    requires k < |ListedLines(c, breaks, cache, file, current, first, last)| && n == first + k
    ensures GetLine(cache, file, n) != ""
    ensures ListedLines(c, breaks, cache, file, current, first, last)[k] == FormatLine(c, breaks, file, n, GetLine(cache, file, n), n == current)
  {
    ListedSourceAt(cache, file, first, last, k, n);
    EntryLinesNumbered(c, breaks, file, first - 1, current, ListedSource(cache, file, first, last), k, n);
  }

  /** A pair `(first, count)` with `count < first` lists at most `count + 1` lines, starting at `first`. */
  lemma ListPairCount(cache: map<string, seq<string>>, file: string, first: int, count: int)
    requires 0 <= count < first
    ensures ListBounds(PairArg(first, count), None, 0) == Some((first, first + count))
    ensures |ListedSource(cache, file, first, first + count)| <= count + 1
  {
    ListedSourceBound(cache, file, first, first + count);
  }

  // ---------------------------------------------------------------------------
  // The traceback chain

  /** One link of a traceback chain: its frame and the next, inner, link. */
  class TbNode {
    const frame: PdbFrame
    const next: TbNode?
    /** The frames of this link and every link after it, outermost first. */
    ghost const frames: seq<PdbFrame>

    ghost predicate Valid()
      decreases |frames|
    {
      && |frames| >= 1
      && frames[0] == frame
      && (next == null ==> |frames| == 1)
      && (next != null ==> next.frames == frames[1..] && next.Valid())
    }

    constructor (frame: PdbFrame, next: TbNode?)
      requires next != null ==> next.Valid()
      ensures Valid()
      ensures this.frame == frame && this.next == next
      ensures frames == [frame] + (if next == null then [] else next.frames)
    {
      this.frame := frame;
      this.next := next;
      frames := [frame] + (if next == null then [] else next.frames);
    }
  }

  /** The debugger's stack: each frame with its current line. */
  function StackOf(frames: seq<PdbFrame>): (s: seq<(PdbFrame, int)>)
    ensures |s| == |frames|
    ensures forall i :: 0 <= i < |frames| ==> s[i] == (frames[i], frames[i].fLineno)
  {
    seq(|frames|, i requires 0 <= i < |frames| => (frames[i], frames[i].fLineno))
  }

  // ---------------------------------------------------------------------------
  // The debugger state

  class Pdb {
    /** The active colours of the debugger's scheme table. */
    var colors: TBColors
    /** The breakpoint table the tracer keeps. */
    var breaks: Breaks
    /** The `list` cursor: the last line listed. */
    var lineno: Option<int>
    var lastcmd: string
    var stack: seq<(PdbFrame, int)>
    var curindex: int
    var curframe: Option<PdbFrame>
    /** `_private_frame_stack`, once a post-mortem session has set it. */
    var privateFrameStack: Option<seq<PdbFrame>>
    /** What the debugger has printed. */
    var out: seq<string>

    constructor (colors: TBColors, breaks: Breaks)
      ensures this.colors == colors && this.breaks == breaks
      ensures lineno == None && lastcmd == "" && stack == [] && curindex == 0 && curframe == None
      ensures privateFrameStack == None && out == []
    {
      this.colors := colors;
      this.breaks := breaks;
      lineno := None;
      lastcmd := "";
      stack := [];
      curindex := 0;
      curframe := None;
      privateFrameStack := None;
      out := [];
    }

    /** The return-value line and the `tpl_link`, `tpl_call` level line. */
    method EntryHeaderOf(frame: PdbFrame, filename: string) returns (ret: string)
      ensures ret == EntryHeader(colors, filename, frame)
    {
      var returnValue := "";
      if frame.returnRepr.Some? {
        returnValue := frame.returnRepr.value + "\n";
      }
      var func := if frame.name != "" then frame.name else "<lambda>";
      var call := "";
      if func != "?" {
        var args := if frame.argsRepr.Some? then frame.argsRepr.value else "()";
        call := "in " + colors.vName + func + colors.valEm + args + colors.normal;
      }
      ret := returnValue + colors.filenameEm + filename + colors.normal + " " + call + "\n";
    }

    /** The loop over the window: each line formatted, the arrow on `lineno`, appended to `ret0`. */
    method AppendEntryLines(ret0: string, filename: string, start: int, lineno: int, lines: seq<string>) returns (ret: string)
      ensures ret == ret0 + Concat(EntryLines(colors, breaks, filename, start, lineno, lines))
    {
      ret := ret0;
      for i := 0 to |lines|
        invariant ret == ret0 + Concat(EntryLines(colors, breaks, filename, start, lineno, lines[..i]))
      {
        var line := lines[i];
        var n := start + 1 + i;
        var shown: string;
        if n == lineno {
          shown := FormatLine(colors, breaks, filename, n, line, true);
        } else {
          shown := FormatLine(colors, breaks, filename, n, line, false);
        }
        ghost var before := EntryLines(colors, breaks, filename, start, lineno, lines[..i]);
        TakeOneMore(lines, i);
        EntryLinesSnoc(colors, breaks, filename, start, lineno, lines[..i], line, n);
        ConcatStep(ret, ret0, before, shown);
        ret := ret + shown;
      }
      assert lines[..|lines|] == lines;
    }

    /** `format_stack_entry`: the header, then the window around `lineno`, clamped to the file. */
    method FormatStackEntry(frameLineno: (PdbFrame, int), canonic: string -> string, cache: map<string, seq<string>>, context: int)
      returns (ret: string)
      ensures ret == StackEntryText(colors, breaks, canonic, cache, frameLineno.0, frameLineno.1, context)
    {
      var (frame, lineno) := frameLineno;
      var filename := canonic(frame.file);
      ret := EntryHeaderOf(frame, filename);
      var allLines := SourceWindows.GetLines(cache, filename);
      var start := lineno - 1 - context / 2;
      start := Max(start, 0);
      start := Min(start, |allLines| - context);
      var lines := PySlice(allLines, start, start + context);
      assert lines == EntryWindow(allLines, lineno, context);
      ret := AppendEntryLines(ret, filename, start, lineno, lines);
    }

    /** `forget`: no cursor, no stack, no current frame. */
    method Forget()
      modifies this
      ensures lineno == None && stack == [] && curindex == 0 && curframe == None
      ensures colors == old(colors) && breaks == old(breaks) && lastcmd == old(lastcmd)
      ensures privateFrameStack == old(privateFrameStack) && out == old(out)
    {
      lineno := None;
      stack := [];
      curindex := 0;
      curframe := None;
    }

    /**
     * The listing loop from `first` to `last`: each line until the first
     * missing one, formatted with the arrow on `current`.
     */
    method ListLines(first: int, last: int, cache: map<string, seq<string>>, filename: string, current: int) returns (src: seq<string>)
      ensures src == ListedLines(colors, breaks, cache, filename, current, first, last)
    {
      src := [];
      ghost var window: seq<string> := [];
      var n := first;
      while n <= last
        invariant n == first + |window|
        invariant window + ListedSource(cache, filename, n, last) == ListedSource(cache, filename, first, last)
        invariant src == EntryLines(colors, breaks, filename, first - 1, current, window)
        decreases last + 1 - n
      {
        var line := GetLine(cache, filename, n);
        if line == "" {
          break;
        }
        MoveFirst(window, line, ListedSource(cache, filename, n + 1, last));
        EntryLinesSnoc(colors, breaks, filename, first - 1, current, window, line, n);
        src := src + [FormatLine(colors, breaks, filename, n, line, n == current)];
        window := window + [line];
        n := n + 1;
      }
      AppendNothing(window);
    }

    /**
     * `list [arg]`: lists the lines its bounds give, with the arrow on the
     * current frame's line, and moves the cursor to the last line shown; a
     * malformed argument prints an error and leaves the cursor alone.
     */
    method DoList(arg: ListArg, cache: map<string, seq<string>>)
      requires curframe.Some?
      modifies this
      ensures lastcmd == "list"
      ensures colors == old(colors) && breaks == old(breaks) && stack == old(stack) && curindex == old(curindex)
      ensures curframe == old(curframe) && privateFrameStack == old(privateFrameStack)
      ensures var bounds := ListBounds(arg, old(lineno), old(curframe).value.fLineno);
        && (bounds.None? ==> lineno == old(lineno) && out == old(out) + ["*** Error in argument: " + arg.repr + "\n"])
        && (bounds.Some? ==>
              var shown := ListedLines(old(colors), old(breaks), cache, old(curframe).value.file, old(curframe).value.fLineno, bounds.value.0, bounds.value.1);
              && out == old(out) + [Concat(shown) + "\n"]
              && lineno == (if shown == [] then old(lineno) else Some(bounds.value.0 + |shown| - 1)))
    {
      var bounds := ListBounds(arg, lineno, curframe.value.fLineno);
      if bounds.None? {
        lastcmd := "list";
        out := out + ["*** Error in argument: " + arg.repr + "\n"];
        return;
      }
      ShowListing(bounds.value.0, bounds.value.1, cache);
    }

    /** The listing itself: prints the lines `first` to `last` and leaves the cursor on the last one shown. */
    method ShowListing(first: int, last: int, cache: map<string, seq<string>>)
      requires curframe.Some?
      modifies this
      ensures lastcmd == "list"
      ensures colors == old(colors) && breaks == old(breaks) && stack == old(stack) && curindex == old(curindex)
      ensures curframe == old(curframe) && privateFrameStack == old(privateFrameStack)
      ensures var shown := ListedLines(colors, breaks, cache, curframe.value.file, curframe.value.fLineno, first, last);
        && out == old(out) + [Concat(shown) + "\n"]
        && lineno == (if shown == [] then old(lineno) else Some(first + |shown| - 1))
    {
      var src := ListLines(first, last, cache, curframe.value.file, curframe.value.fLineno);
      lastcmd := "list";
      if src != [] {
        lineno := Some(first + |src| - 1);
      }
      out := out + [Concat(src) + "\n"];
    }

    /**
     * What `interaction` sets up before its command loop: the standard
     * debugger's stack and index from `setup`, replaced, once a post-mortem
     * session has set a private frame stack, by that stack with its
     * innermost frame current.
     */
    method Interaction(setupStack: seq<(PdbFrame, int)>, setupIndex: nat)
      requires setupIndex < |setupStack|
      requires privateFrameStack.Some? ==> |privateFrameStack.value| > 0
      modifies this
      ensures privateFrameStack == old(privateFrameStack)
      ensures lineno == None
      ensures privateFrameStack.None? ==>
        stack == setupStack && curindex == setupIndex && curframe == Some(setupStack[setupIndex].0)
      ensures privateFrameStack.Some? ==>
        var frames := privateFrameStack.value;
        stack == StackOf(frames) && curindex == |frames| - 1 && curframe == Some(frames[|frames| - 1])
      ensures colors == old(colors) && breaks == old(breaks) && lastcmd == old(lastcmd) && out == old(out)
    {
      Forget();
      stack, curindex := setupStack, setupIndex;
      curframe := Some(stack[curindex].0);
      if privateFrameStack.Some? {
        var frames := privateFrameStack.value;
        stack := StackOf(frames);
        curindex := |stack| - 1;
        curframe := Some(stack[|stack| - 1].0);
      }
    }

    /**
     * `post_mortem(t)`: collects the frame of every link of the chain,
     * outermost first, and enters the session on them with the innermost
     * frame current and no `list` cursor.
     */
    method PostMortem(t: TbNode, setupStack: seq<(PdbFrame, int)>, setupIndex: nat)
      requires t.Valid()
      requires setupIndex < |setupStack|
      modifies this
      ensures privateFrameStack == Some(t.frames)
      ensures stack == StackOf(t.frames) && curindex == |t.frames| - 1 && curframe == Some(t.frames[|t.frames| - 1])
      ensures lineno == None
      ensures colors == old(colors) && breaks == old(breaks) && out == old(out) && lastcmd == old(lastcmd)
    {
      Forget();
      var frames := [t.frame];
      var node: TbNode := t;
      while node.next != null
        invariant node.Valid()
        invariant frames + node.frames[1..] == t.frames
        decreases |node.frames|
      {
        node := node.next;
        frames := frames + [node.frame];
      }
      assert node.frames[1..] == [];
      assert frames + [] == frames;
      privateFrameStack := Some(frames);
      Interaction(setupStack, setupIndex);
    }
  }
}
