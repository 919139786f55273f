/**
 * The reports the formatters produce: the verbose report (`VerboseTB.text`),
 * the report of a syntax error (`SyntaxTB.text`), and the choice between the
 * verbose and the plain report (`FormattedTB.text`).
 */
module Reports {
  import opened Text
  import opened Tokens
  import opened ExceptionColors
  import NameExtractor
  import NameResolution
  import opened SourceWindows
  import opened TracebackLines
  import opened ListTraceback

  /** What the formatters read from outside: the line cache, `os.path.abspath`, the keyword list and the tokenizer. */
  datatype Env = Env(
    cache: map<string, seq<string>>,      // `linecache`: file name to lines
    abspath: string -> string,            // `os.path.abspath`, already falling back to the name when it raises
    keywords: set<string>,                // `keyword.kwlist`
    tokensAt: (string, int) -> seq<Token>) // what `tokenize` hands the callback reading `file` from line `lnum` on

  /**
   * A traceback as the formatters see it: the entries `traceback.extract_tb`
   * gives and the records `inspect.getinnerframes` gives, outermost first.
   * No entries stands for no traceback at all (`tb` is `None`).
   */
  datatype Traceback = Traceback(entries: seq<TbEntry>, records: seq<FrameRecord>)

  /** Both views describe the same frames. */
  predicate WellFormed(tb: Traceback)
  {
    |tb.entries| == |tb.records|
  }

  /** The `(file, line)` pairs of the entries. */
  function Aux(entries: seq<TbEntry>): (aux: seq<(string, int)>)
    ensures |aux| == |entries|
  {
    seq(|entries|, k requires 0 <= k < |entries| => (entries[k].filename, entries[k].lineno))
  }

  /** The context the verbose formatters always ask for. */
  const CONTEXT := 5

  const VERBOSE_MODES := {"Context", "Verbose"}

  /** `file and abspath(file) or '?'`. */
  function ShownFile(env: Env, file: string): string
  {
    if file == "" then "?" else env.abspath(file)
  }

  /** The first header line, a rule of 75 dashes. */
  function Rule(c: TBColors): string
  {
    c.topline + Repeat('-', 75) + c.normal + "\n"
  }

  // ---------------------------------------------------------------------------
  // VerboseTB.text

  /** `str(etype)` once a class has been replaced by its name. */
  function TypeName(etype: ExcType): string
  {
    match etype
    case ExcClass(name, _, _, _) => name
    case StringExc(text) => text
  }

  /** `str(evalue)`. */
  function ValueName(evalue: ExcValue): string
  {
    match evalue
    case NoValue => "None"
    case Value(text, _, _) => text
  }

  function VerboseHead(c: TBColors, etypeStr: string): string
  {
    Rule(c) + c.excName + etypeStr + c.normal + RJust("Traceback (most recent call last)", 75 - |etypeStr|)
  }

  /** The call shown after the file: nothing for module level, else the function and its arguments. */
  function CallText(c: TBColors, r: FrameRecord, includeVars: bool): string
  {
    if r.func == "?" then ""
    else
      match r.frame.formatArgs(includeVars)
      case Some(args) => "in " + c.vName + r.func + c.valEm + args + c.normal
      case None => "in " + c.vName + r.func + c.valEm + "(***failed resolving arguments***)" + c.normal
  }

  /** The text of one frame: the link and call line, then the numbered source with the variables. */
  function FrameText(c: TBColors, env: Env, r: FrameRecord, includeVars: bool): string
  {
    var file := ShownFile(env, r.file);
    var level := c.filenameEm + file + c.normal + " " + CallText(c, r, includeVars) + "\n";
    match r.index
    case None => level
    case Some(index) =>
      var names := NameExtractor.LineNames(env.tokensAt(file, r.lnum), env.keywords);
      var lvals := NameResolution.LocalsText(c, r.frame, names, includeVars);
      level + Concat(Listing(c, r.lnum, index, r.lines, lvals))
  }

  function FrameTexts(c: TBColors, env: Env, records: seq<FrameRecord>, includeVars: bool): (r: seq<string>)
    ensures |r| == |records|
    ensures forall k :: 0 <= k < |records| ==> r[k] == FrameText(c, env, records[k], includeVars)
  {
    seq(|records|, k requires 0 <= k < |records| => FrameText(c, env, records[k], includeVars))
  }

  /** The exception line that closes the verbose report. */
  function VerboseException(c: TBColors, etype: ExcType, evalue: ExcValue): string
  {
    c.excName + TypeName(etype) + c.normal + ": " + ValueName(evalue)
  }

  /** Everything in the verbose report before the exception line. */
  function VerboseBody(c: TBColors, env: Env, etype: ExcType, tb: Traceback, includeVars: bool, tbOffset: int): string
    requires WellFormed(tb)
  {
    var records := FixedInnerFrames(tb.records, Aux(tb.entries), env.cache, CONTEXT, tbOffset);
    VerboseHead(c, TypeName(etype)) + "\n\n" + JoinWith("\n", FrameTexts(c, env, records, includeVars)) + "\n"
  }

  /** `VerboseTB.text` with the short header. */
  function VerboseText(c: TBColors, env: Env, etype: ExcType, evalue: ExcValue, tb: Traceback, includeVars: bool, tbOffset: int): string
    requires WellFormed(tb)
  {
    VerboseBody(c, env, etype, tb, includeVars, tbOffset) + VerboseException(c, etype, evalue)
  }

  /** One iteration of the loop over the records: the link, the call, the names and their values, the listing. */
  method FrameTextOf(c: TBColors, env: Env, r: FrameRecord, includeVars: bool) returns (frameText: string)
    ensures frameText == FrameText(c, env, r, includeVars)
  {
    var file := if r.file == "" then "?" else env.abspath(r.file);
    var link := c.filenameEm + file + c.normal;
    var call := CallText(c, r, includeVars);
    var names := NameExtractor.ExtractNames(env.tokensAt(file, r.lnum), env.keywords);
    var lvals := NameResolution.LineValues(c, r.frame, names, includeVars);
    var level := link + " " + call + "\n";
    match r.index {
      case None =>
        frameText := level;
      case Some(index) =>
        var listing := FormatTracebackLines(r.lnum, index, r.lines, c, lvals);
        frameText := level + Concat(listing);
    }
  }

  /** The loop over the records, building `frames`. */
  method FormatFrames(c: TBColors, env: Env, records: seq<FrameRecord>, includeVars: bool) returns (frames: seq<string>)
    ensures frames == FrameTexts(c, env, records, includeVars)
  {
    frames := [];
    for k := 0 to |records|
      invariant |frames| == k
      invariant forall j :: 0 <= j < k ==> frames[j] == FrameText(c, env, records[j], includeVars)
    {
      var frameText := FrameTextOf(c, env, records[k], includeVars);
      frames := frames + [frameText];
    }
  }

  /** `VerboseTB.text`: the records with their windows, one text per frame, then the exception line. */
  method VerboseTbText(c: TBColors, env: Env, etype: ExcType, evalue: ExcValue, tb: Traceback, includeVars: bool, tbOffset: int)
    returns (text: string)
    requires WellFormed(tb)
    ensures text == VerboseText(c, env, etype, evalue, tb, includeVars, tbOffset)
  {
    var etypeStr := TypeName(etype);
    var head := Rule(c) + c.excName + etypeStr + c.normal + RJust("Traceback (most recent call last)", 75 - |etypeStr|);
    var buffer := new FrameRecord[|tb.records|](k requires 0 <= k < |tb.records| => tb.records[k]);
    assert buffer[..] == tb.records;
    var records := FixInnerFrames(buffer, Aux(tb.entries), env.cache, CONTEXT, tbOffset);
    assert records == FixedInnerFrames(tb.records, Aux(tb.entries), env.cache, CONTEXT, tbOffset);
    assert head == VerboseHead(c, etypeStr);
    var frames := FormatFrames(c, env, records, includeVars);
    var body := head + "\n\n" + JoinWith("\n", frames) + "\n";
    assert body == VerboseBody(c, env, etype, tb, includeVars, tbOffset);
    text := body + (c.excName + etypeStr + c.normal + ": " + ValueName(evalue));
  }

  /**
   * The second header line is 75 columns wide (wider only for a type name of
   * more than 42 characters), and it ends with the title.
   */
  lemma VerboseHeaderWidth(etypeStr: string)
    ensures var line := etypeStr + RJust("Traceback (most recent call last)", 75 - |etypeStr|);
      && |line| == Max(75, |etypeStr| + 33)
      && line[|line| - 33..] == "Traceback (most recent call last)"
  {
    var title := "Traceback (most recent call last)";
    assert |title| == 33;
    RJustShape(title, 75 - |etypeStr|);
    var line := etypeStr + RJust(title, 75 - |etypeStr|);
    assert line[|line| - 33..] == RJust(title, 75 - |etypeStr|)[|RJust(title, 75 - |etypeStr|)| - 33..];
  }

  /** The report ends with the exception line `type: value` and nothing after it. */
  lemma VerboseTextEndsWithException(c: TBColors, env: Env, etype: ExcType, evalue: ExcValue, tb: Traceback, includeVars: bool, tbOffset: int)
    requires WellFormed(tb)
    ensures var t := VerboseText(c, env, etype, evalue, tb, includeVars, tbOffset);
      var e := c.excName + TypeName(etype) + c.normal + ": " + ValueName(evalue);
      |e| <= |t| && t[|t| - |e|..] == e
  {
    var body := VerboseBody(c, env, etype, tb, includeVars, tbOffset);
    var e := VerboseException(c, etype, evalue);
    assert (body + e)[|body + e| - |e|..] == e;
  }

  // ---------------------------------------------------------------------------
  // FormattedTB.text

  /** The entries left after `del elist[:tb_offset]`, which only happens when the list is longer than the offset. */
  function DroppedEntries(entries: seq<TbEntry>, tbOffset: int): seq<TbEntry>
  {
    if |entries| > tbOffset then PySlice(entries, tbOffset, |entries|) else entries
  }

  /**
   * `FormattedTB.text`: the verbose report in a verbose mode when the traceback
   * has at least two frames, else the plain report of the entries from
   * `tbOffset` on. `None` stands for the TypeError that `len(None)` raises when
   * there is no traceback, or for the one `ListTB.text` raises on a string
   * exception.
   */
  function FormattedText(c: TBColors, env: Env, mode: string, includeVars: bool, tbOffset: int, etype: ExcType, value: ExcValue, tb: Traceback): (r: Option<string>)
    requires WellFormed(tb)
    ensures mode in VERBOSE_MODES && |tb.entries| >= 2 ==> r == Some(VerboseText(c, env, etype, value, tb, includeVars, tbOffset))
    ensures !(mode in VERBOSE_MODES && |tb.entries| >= 2) ==> (r.Some? <==> tb.entries != [] && !FormatRaises(etype, value))
    ensures !(mode in VERBOSE_MODES && |tb.entries| >= 2) && r.Some? ==>
      var e := ExceptionLine(c, etype, value);
      |e| <= |r.value| && r.value[|r.value| - |e|..] == e
  {
    if mode in VERBOSE_MODES && |tb.entries| >= 2 then Some(VerboseText(c, env, etype, value, tb, includeVars, tbOffset))
    else if tb.entries == [] then None
    else if FormatRaises(etype, value) then ListText(c, etype, value, DroppedEntries(tb.entries, tbOffset))
    else
      ListTextEndsWithException(c, etype, value, DroppedEntries(tb.entries, tbOffset));
      ListText(c, etype, value, DroppedEntries(tb.entries, tbOffset))
  }

  /**
   * The offset drops the outermost entries: with `0 <= tbOffset < n` the
   * innermost `n - tbOffset` entries are kept in order; an offset as large as
   * the traceback keeps every entry instead of none.
   */
  lemma DroppedEntriesKeepInnermost(entries: seq<TbEntry>, tbOffset: int)
    ensures 0 <= tbOffset < |entries| ==> DroppedEntries(entries, tbOffset) == entries[tbOffset..]
    ensures tbOffset >= |entries| ==> DroppedEntries(entries, tbOffset) == entries
    ensures |DroppedEntries(entries, tbOffset)| > 0 <==> |entries| > 0
  {
  }

  /** A traceback of one frame is never shown verbosely, whatever the mode. */
  lemma SingleFrameIsPlain(c: TBColors, env: Env, mode: string, includeVars: bool, tbOffset: int, etype: ExcType, value: ExcValue, tb: Traceback)
    requires WellFormed(tb) && |tb.entries| == 1
    ensures FormattedText(c, env, mode, includeVars, tbOffset, etype, value, tb) == ListText(c, etype, value, tb.entries)
  {
    DroppedSingle(tb.entries, tbOffset);
  }

  /** No offset drops the only entry. */
  lemma DroppedSingle(entries: seq<TbEntry>, tbOffset: int)
    requires |entries| == 1
    ensures DroppedEntries(entries, tbOffset) == entries
  {
    if tbOffset < 1 {
      assert PySlice(entries, tbOffset, 1) == entries[0..1];
    }
  }

  // ---------------------------------------------------------------------------
  // SyntaxTB.text

  /** `str(etype)`, the text whose length the header subtracts. */
  function ClassText(etype: ExcType): string
  {
    match etype
    case ExcClass(_, classText, _, _) => classText
    case StringExc(text) => text
  }

  /**
   * A syntax error from a non-Python source carries no line number, neither
   * as an attribute nor in what it unpacks to: the verbose report bails out
   * to the plain one, whose location line then raises on the missing number.
   */
  lemma NonPythonSyntaxErrorFails(c: TBColors, env: Env, mode: string, etype: ExcType, msg: string, filename: string, elist: Option<seq<TbEntry>>)
    requires mode in VERBOSE_MODES && IsSyntaxError(etype)
    ensures SyntaxText(c, env, mode, etype,
      Value(msg, Some(SyntaxDetails(msg, filename, None, None, None)), Some(SyntaxAttrs(filename, None, msg))), elist).None?
  {
    var value := Value(msg, Some(SyntaxDetails(msg, filename, None, None, None)), Some(SyntaxAttrs(filename, None, msg)));
    if elist.Some? {
      SyntaxErrorWithoutLineNumber(c, etype, value, elist.value);
    }
  }

  /** The numbered window of five lines around the offending line, without a variable listing. */
  function SyntaxListing(c: TBColors, env: Env, filename: string, lineno: int): seq<string>
  {
    Listing(c, lineno, CONTEXT / 2, SyntaxWindow(GetLines(env.cache, filename), lineno, CONTEXT), "")
  }

  /**
   * `ListTB.text` on what `_extract_tb` gave; `None` when `_extract_tb` itself
   * raised.
   */
  function ExtractedListText(c: TBColors, etype: ExcType, value: ExcValue, elist: Option<seq<TbEntry>>): Option<string>
  {
    match elist
    case None => None
    case Some(entries) => ListText(c, etype, value, entries)
  }

  /**
   * `SyntaxTB.text`, `elist` being what `_extract_tb` gives for the traceback
   * it was handed (`None` when that call raises). In a verbose mode: the
   * window around the offending line with its link and the message, or the
   * plain report when the error has no line number. `None` stands for the
   * AttributeError raised when the value lacks the syntax-error attributes or
   * the type has no name, and for a failure of the plain report.
   */
  function SyntaxText(c: TBColors, env: Env, mode: string, etype: ExcType, value: ExcValue, elist: Option<seq<TbEntry>>): (r: Option<string>)
    ensures r.Some? ==> etype.ExcClass?
    ensures mode !in VERBOSE_MODES ==> (r.Some? <==> !FormatRaises(etype, value) && elist.Some?)
    ensures mode !in VERBOSE_MODES && r.Some? ==> r == ListText(c, etype, value, elist.value)
    ensures mode in VERBOSE_MODES && etype.ExcClass? && value.Value? && value.attrs.Some? && value.attrs.value.lineno.Some? ==>
      var m := c.excName + "SyntaxError" + c.normal + ": " + value.attrs.value.msg;
      r.Some? && |m| <= |r.value| && r.value[|r.value| - |m|..] == m
  {
    if mode !in VERBOSE_MODES then ExtractedListText(c, etype, value, elist)
    else if etype.StringExc? || value.NoValue? || value.attrs.None? then None
    else
      var a := value.attrs.value;
      match a.lineno
      case None => ExtractedListText(c, etype, value, elist)
      case Some(lineno) =>
        var head := Rule(c) + c.excName + etype.name + c.normal + RJust("Source of error (context)", 75 - |ClassText(etype)|);
        var link := c.filenameEm + ShownFile(env, a.filename) + c.normal;
        var sourcelines := [link + "\n"] + SyntaxListing(c, env, a.filename, lineno);
        var front := head + "\n\n" + Concat(sourcelines) + "\n";
        var exception := c.excName + "SyntaxError" + c.normal + ": " + a.msg;
        SuffixOfJoin(front, exception);
        Some(front + exception)
  }

  /**
   * The verbose syntax report lists five lines numbered `lineno - 2` to
   * `lineno + 2` with the arrow on the middle one, which shows the offending
   * line whenever the file has two lines before it and one after it.
   */
  lemma SyntaxListingCentred(c: TBColors, env: Env, filename: string, lineno: int)
    ensures var r := SyntaxListing(c, env, filename, lineno);
      var w := SyntaxWindow(GetLines(env.cache, filename), lineno, CONTEXT);
      && |r| == 5
      && (forall k :: 0 <= k < 5 ==> r[k] == NumberedLine(c, lineno - 2 + k, lineno, w[k]))
      && (2 <= lineno - 1 && lineno + 1 <= |GetLines(env.cache, filename)| ==> w[2] == GetLines(env.cache, filename)[lineno - 1])
  {
    forall k | 0 <= k < 5
      ensures SyntaxListing(c, env, filename, lineno)[k]
           == NumberedLine(c, lineno - 2 + k, lineno, SyntaxWindow(GetLines(env.cache, filename), lineno, CONTEXT)[k])
    {
      NumberedLinesAt(c, lineno, CONTEXT / 2, SyntaxWindow(GetLines(env.cache, filename), lineno, CONTEXT), k, lineno - 2 + k);
    }
    if 2 <= lineno - 1 && lineno + 1 <= |GetLines(env.cache, filename)| {
      SyntaxWindowCentred(GetLines(env.cache, filename), lineno, CONTEXT);
    }
  }
}
