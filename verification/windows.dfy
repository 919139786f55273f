/**
 * Which source lines a traceback shows around a failing line: the window
 * `_fixed_getinnerframes` puts in every frame record, and the window the
 * verbose syntax-error report shows around the offending line.
 */
module SourceWindows {
  import opened Text
  import NameResolution

  /** `linecache.getlines(file)`: the file's lines, or nothing for a file it cannot find. */
  function GetLines(cache: map<string, seq<string>>, file: string): seq<string>
  {
    if file in cache then cache[file] else []
  }

  /** A source window and the position of the failing line in it. */
  datatype Window = Window(lines: seq<string>, index: int)

  /** `lnum - 1 - context // 2`: where the window would start if the file extended upwards. */
  function MaybeStart(lnum: int, context: int): int
  {
    lnum - 1 - context / 2
  }

  /** The window of `context` lines around line `lnum` (counted from 1) of `fileLines`. */
  function InnerWindow(fileLines: seq<string>, lnum: int, context: int): (w: Window)
    ensures |w.lines| >= context
    ensures w.index == lnum - 1 - Max(MaybeStart(lnum, context), 0)
  {
    var maybeStart := MaybeStart(lnum, context);
    var start := Max(maybeStart, 0);
    var lines := PySlice(fileLines, start, start + context);
    var padded := if maybeStart < 0 then Repeat("\n", -maybeStart) + lines else lines;
    var full := if |padded| < context then padded + Repeat("\n", context - |padded|) else padded;
    Window(full, lnum - 1 - start)
  }

  /**
   * When the window fits below the top of the file it holds exactly `context`
   * lines, the line at position `k` is line `start + k + 1` of the file (or a
   * blank line past its end), and the failing line sits at `context // 2`.
   */
  lemma InnerWindowAligned(fileLines: seq<string>, lnum: int, context: int)
    requires MaybeStart(lnum, context) >= 0 && context >= 0
    ensures var w := InnerWindow(fileLines, lnum, context);
      && |w.lines| == context
      && w.index == context / 2
      && forall k :: 0 <= k < context ==>
           w.lines[k] == (if MaybeStart(lnum, context) + k < |fileLines| then fileLines[MaybeStart(lnum, context) + k] else "\n")
  {
    var start := MaybeStart(lnum, context);
    PySliceNatural(fileLines, start, start + context);
  }

  /**
   * Near the top of the file the front padding is added on top of a window
   * that already starts at line 1: the window grows to `context - maybeStart`
   * lines when the file is long enough, and the line at position `k` is line
   * `k - pad + 1`, not line `k + 1` as its position (and its number in the
   * listing) says.
   */
  lemma InnerWindowPadded(fileLines: seq<string>, lnum: int, context: int)
    requires MaybeStart(lnum, context) < 0 && context >= 0
    ensures var w := InnerWindow(fileLines, lnum, context);
      var pad := -MaybeStart(lnum, context);
      && w.index == lnum - 1
      && (|fileLines| >= context ==> |w.lines| == context + pad)
      && (forall k :: 0 <= k < pad ==> w.lines[k] == "\n")
      && (forall k :: pad <= k < pad + context && k - pad < |fileLines| ==> w.lines[k] == fileLines[k - pad])
  {
    PySliceNatural(fileLines, 0, context);
  }

  /** A concrete case of the padding: line 1 with a context of 5 shows two blank lines, then lines 1 to 5. */
  lemma InnerWindowPaddedExample(fileLines: seq<string>)
    requires |fileLines| >= 5
    ensures InnerWindow(fileLines, 1, 5).lines == ["\n", "\n"] + fileLines[..5]
    ensures InnerWindow(fileLines, 1, 5).index == 0
  {
    PySliceNatural(fileLines, 0, 5);
  }

  /** One record of `inspect.getinnerframes`: frame, file, line number, function name, context lines, index. */
  datatype FrameRecord = FrameRecord(
    frame: NameResolution.Frame,
    file: string,
    lnum: int,
    func: string,
    lines: seq<string>,
    index: Option<int>)

  /** `rname.endswith('<string>')`. */
  predicate EndsWith(s: string, suffix: string)
  {
    |suffix| <= |s| && s[|s| - |suffix|..] == suffix
  }

  /** A record whose file is the console or a string of code gets no context. */
  predicate IsConsole(records: seq<FrameRecord>, tbOffset: int)
  {
    var check := PySlice(records, tbOffset, |records|);
    |check| > 0 && (check[0].file == "<ipython console>" || EndsWith(check[0].file, "<string>"))
  }

  /** A record with the window for `(file, lnum)` in place of its own lines. */
  function FixRecord(r: FrameRecord, file: string, lnum: int, cache: map<string, seq<string>>, context: int): FrameRecord
  {
    var w := InnerWindow(GetLines(cache, file), lnum, context);
    r.(lnum := lnum, index := Some(w.index), lines := w.lines)
  }

  /** The records after the rewrite, `aux` being the `(file, line)` of each traceback entry. */
  function FixRecords(records: seq<FrameRecord>, aux: seq<(string, int)>, cache: map<string, seq<string>>, context: int): (r: seq<FrameRecord>)
    requires |aux| == |records|
    ensures |r| == |records|
    ensures forall i :: 0 <= i < |r| ==> r[i] == FixRecord(records[i], aux[i].0, aux[i].1, cache, context)
  {
    seq(|records|, i requires 0 <= i < |records| => FixRecord(records[i], aux[i].0, aux[i].1, cache, context))
  }

  /** `_fixed_getinnerframes` on values: the records it returns. */
  function FixedInnerFrames(records: seq<FrameRecord>, aux: seq<(string, int)>, cache: map<string, seq<string>>, context: int, tbOffset: int): seq<FrameRecord>
    requires |aux| == |records|
  {
    if IsConsole(records, tbOffset) then PySlice(records, tbOffset, |records|)
    else PySlice(FixRecords(records, aux, cache, context), tbOffset, |records|)
  }

  /** The window arithmetic of one loop iteration: slice, front padding, end padding. */
  method WindowOf(fileLines: seq<string>, lnum: int, context: int) returns (lines: seq<string>, index: int)
    ensures Window(lines, index) == InnerWindow(fileLines, lnum, context)
  {
    var maybeStart := lnum - 1 - context / 2;
    var start := Max(maybeStart, 0);
    var end := start + context;
    lines := PySlice(fileLines, start, end);
    if maybeStart < 0 {
      lines := Repeat("\n", -maybeStart) + lines;
    }
    if |lines| < context {
      lines := lines + Repeat("\n", context - |lines|);
    }
    index := lnum - 1 - start;
  }

  /**
   * `_fixed_getinnerframes`: unless the first record kept is console input,
   * rewrites every record in place with its window, then returns the records
   * from `tbOffset` on.
   */
  method FixInnerFrames(records: array<FrameRecord>, aux: seq<(string, int)>, cache: map<string, seq<string>>, context: int, tbOffset: int)
    returns (result: seq<FrameRecord>)
    requires |aux| == records.Length
    modifies records
    ensures IsConsole(old(records[..]), tbOffset) ==> records[..] == old(records[..])
    ensures !IsConsole(old(records[..]), tbOffset) ==> records[..] == FixRecords(old(records[..]), aux, cache, context)
    ensures result == FixedInnerFrames(old(records[..]), aux, cache, context, tbOffset)
  {
    var recCheck := PySlice(records[..], tbOffset, records.Length);
    if |recCheck| > 0 && (recCheck[0].file == "<ipython console>" || EndsWith(recCheck[0].file, "<string>")) {
      return recCheck;
    }
    RewriteRecords(records, aux, cache, context);
    result := PySlice(records[..], tbOffset, records.Length);
  }

  /** The loop of `_fixed_getinnerframes`: every record in turn gets the window of its traceback entry. */
  method RewriteRecords(records: array<FrameRecord>, aux: seq<(string, int)>, cache: map<string, seq<string>>, context: int)
    requires |aux| == records.Length
    modifies records
    ensures records[..] == FixRecords(old(records[..]), aux, cache, context)
  {
    for i := 0 to records.Length
      invariant forall k :: 0 <= k < i ==> records[k] == FixRecord(old(records[k]), aux[k].0, aux[k].1, cache, context)
      invariant forall k :: i <= k < records.Length ==> records[k] == old(records[k])
    {
      var (file, lnum) := aux[i];
      var lines, index := WindowOf(GetLines(cache, file), lnum, context);
      records[i] := records[i].(lnum := lnum, index := Some(index), lines := lines);
    }
  }

  // ---------------------------------------------------------------------------
  // The syntax-error window

  /** `context // 2` lines either side, then blank lines up to exactly `2c + 1`. */
  function SyntaxWindow(fileLines: seq<string>, lineno: int, context: nat): (lines: seq<string>)
    ensures |lines| == 2 * (context / 2) + 1
  {
    var c := context / 2;
    var sl := PySlice(fileLines, lineno - 1 - c, lineno - 1 + c);
    PySliceAtMost(fileLines, lineno - 1 - c, lineno - 1 + c);
    sl + Repeat("\n", 2 * c + 1 - |sl|)
  }

  /** The slice, then `lines.append("\n")` until the window holds `2c + 1` lines. */
  method SyntaxWindowLines(fileLines: seq<string>, lineno: int, context: nat) returns (lines: seq<string>)
    ensures lines == SyntaxWindow(fileLines, lineno, context)
  {
    var c := context / 2;
    lines := PySlice(fileLines, lineno - 1 - c, lineno - 1 + c);
    PySliceAtMost(fileLines, lineno - 1 - c, lineno - 1 + c);
    ghost var sl := lines;
    while |lines| != c * 2 + 1
      invariant |sl| <= |lines| <= 2 * c + 1
      invariant lines == sl + Repeat("\n", |lines| - |sl|)
      decreases 2 * c + 1 - |lines|
    {
      lines := lines + ["\n"];
    }
  }

  /**
   * Away from both ends of the file the window holds the `c` lines before the
   * offending line, the line itself at position `c`, the `c - 1` lines after
   * it, and one blank line: the slice's upper bound is exclusive, so the last
   * line is always padding.
   */
  lemma SyntaxWindowCentred(fileLines: seq<string>, lineno: int, context: nat)
    requires var c := context / 2; c <= lineno - 1 && lineno - 1 + c <= |fileLines|
    ensures var c := context / 2; var w := SyntaxWindow(fileLines, lineno, context);
      && (forall k :: 0 <= k < 2 * c ==> w[k] == fileLines[lineno - 1 - c + k])
      && (c > 0 ==> w[c] == fileLines[lineno - 1])
      && w[2 * c] == "\n"
  {
    var c := context / 2;
    PySliceNatural(fileLines, lineno - 1 - c, lineno - 1 + c);
  }

  /** Whatever the file and line, the last line of the window is blank padding. */
  lemma SyntaxWindowEndsBlank(fileLines: seq<string>, lineno: int, context: nat)
    ensures SyntaxWindow(fileLines, lineno, context)[2 * (context / 2)] == "\n"
  {
    var c := context / 2;
    PySliceAtMost(fileLines, lineno - 1 - c, lineno - 1 + c);
  }

  /**
   * On one of the first `c` lines of a long file the slice's start is
   * negative and counts from the end of the file, past its stop: the window
   * shows no source at all, only blank lines.
   */
  lemma SyntaxWindowNearTop(fileLines: seq<string>, lineno: int, context: nat)
    requires var c := context / 2; 1 <= lineno && lineno - 1 < c && 2 * c <= |fileLines|
    ensures forall k :: 0 <= k < |SyntaxWindow(fileLines, lineno, context)| ==> SyntaxWindow(fileLines, lineno, context)[k] == "\n"
  {
  }
}
