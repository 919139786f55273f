/**
 * The plain traceback: one `File "...", line N, in f` entry per frame, the
 * exception lines (with the source line and a caret under the error column for
 * a syntax error), and `ListTB.text`, which puts them together.
 */
module ListTraceback {
  import opened Text
  import opened ExceptionColors

  /** One entry of `traceback.extract_tb`: file name, line number, function name and source line (`None` when unknown). */
  datatype TbEntry = TbEntry(filename: string, lineno: int, name: string, line: Option<string>)

  /** Python's truth value of the optional source line: `None` and the empty string are false. */
  predicate HasText(line: Option<string>)
  {
    line.Some? && line.value != ""
  }

  /** An entry other than the last. */
  function EntryText(c: TBColors, e: TbEntry): string
  {
    var item := "  File " + c.filename + "\"" + e.filename + "\"" + c.normal
      + ", line " + c.lineno + IntToString(e.lineno) + c.normal
      + ", in " + c.name + e.name + c.normal + "\n";
    if HasText(e.line) then item + "    " + Strip(e.line.value) + "\n" else item
  }

  /** The last entry, in the emphasised colours. */
  function LastEntryText(c: TBColors, e: TbEntry): string
  {
    var item := c.normalEm + "  File " + c.filenameEm + "\"" + e.filename + "\"" + c.normalEm
      + ", line " + c.linenoEm + IntToString(e.lineno) + c.normalEm
      + ", in " + c.nameEm + e.name + c.normalEm + c.normal + "\n";
    if HasText(e.line) then item + c.line + "    " + Strip(e.line.value) + c.normal + "\n" else item
  }

  /** What `_format_list` returns: the entries in order, the last one emphasised. */
  function FormattedList(c: TBColors, elist: seq<TbEntry>): (r: seq<string>)
    requires |elist| > 0
    ensures |r| == |elist|
    ensures forall k :: 0 <= k < |elist| - 1 ==> r[k] == EntryText(c, elist[k])
    ensures r[|r| - 1] == LastEntryText(c, elist[|elist| - 1])
  {
    seq(|elist| - 1, k requires 0 <= k < |elist| - 1 => EntryText(c, elist[k])) + [LastEntryText(c, elist[|elist| - 1])]
  }

  /** `_format_list`: a loop over all entries but the last, then the last. */
  method FormatList(c: TBColors, elist: seq<TbEntry>) returns (list: seq<string>)
    requires |elist| > 0
    ensures list == FormattedList(c, elist)
  {
    list := [];
    for k := 0 to |elist| - 1
      invariant |list| == k
      invariant forall j :: 0 <= j < k ==> list[j] == EntryText(c, elist[j])
    {
      var item := FormatEntry(c, elist[k]);
      list := list + [item];
    }
    var item := FormatLastEntry(c, elist[|elist| - 1]);
    FormattedListOf(c, elist, list);
    list := list + [item];
  }

  /** The loop body of `_format_list`: one entry, and its source line when there is one. */
  method FormatEntry(c: TBColors, e: TbEntry) returns (item: string)
    ensures item == EntryText(c, e)
  {
    item := "  File " + c.filename + "\"" + e.filename + "\"" + c.normal
      + ", line " + c.lineno + IntToString(e.lineno) + c.normal
      + ", in " + c.name + e.name + c.normal + "\n";
    if e.line.Some? && e.line.value != "" {
      item := item + "    " + Strip(e.line.value) + "\n";
    }
  }

  /** The last entry of `_format_list`, in the emphasised colours. */
  method FormatLastEntry(c: TBColors, e: TbEntry) returns (item: string)
    ensures item == LastEntryText(c, e)
  {
    item := c.normalEm + "  File " + c.filenameEm + "\"" + e.filename + "\"" + c.normalEm
      + ", line " + c.linenoEm + IntToString(e.lineno) + c.normalEm
      + ", in " + c.nameEm + e.name + c.normalEm + c.normal + "\n";
    if e.line.Some? && e.line.value != "" {
      item := item + c.line + "    " + Strip(e.line.value) + c.normal + "\n";
    }
  }

  /** The entries before the last, then the last one, make the formatted list. */
  lemma FormattedListOf(c: TBColors, elist: seq<TbEntry>, init: seq<string>)
    requires |elist| > 0 && |init| == |elist| - 1
    requires forall j :: 0 <= j < |init| ==> init[j] == EntryText(c, elist[j])
    ensures init + [LastEntryText(c, elist[|elist| - 1])] == FormattedList(c, elist)
  {
  }

  /** Every formatted entry is a whole number of lines: it ends with a newline. */
  lemma EntriesEndWithNewline(c: TBColors, elist: seq<TbEntry>)
    requires |elist| > 0
    ensures forall k :: 0 <= k < |elist| ==>
      var s := FormattedList(c, elist)[k]; |s| > 0 && s[|s| - 1] == '\n'
  {
  }

  /** Without colours an entry reads as in the standard library's traceback listing. */
  lemma EntryNoColor(e: TbEntry)
    requires !HasText(e.line)
    ensures EntryText(NO_COLOR, e) == "  File " + "\"" + e.filename + "\"" + ", line " + IntToString(e.lineno) + ", in " + e.name + "\n"
    ensures LastEntryText(NO_COLOR, e) == EntryText(NO_COLOR, e)
  {
    PlainItem("  File ", NO_COLOR.filename, "\"", e.filename, "\"", NO_COLOR.normal, ", line ", NO_COLOR.lineno, IntToString(e.lineno),
      NO_COLOR.normal, ", in ", NO_COLOR.name, e.name, NO_COLOR.normal, "\n");
    PlainLastItem(NO_COLOR.normalEm, "  File ", NO_COLOR.filenameEm, "\"", e.filename, "\"", NO_COLOR.normalEm, ", line ", NO_COLOR.linenoEm,
      IntToString(e.lineno), NO_COLOR.normalEm, ", in ", NO_COLOR.nameEm, e.name, NO_COLOR.normalEm, NO_COLOR.normal, "\n");
  }

  /** The entry template with its colour fields `e1` to `e6` empty. */
  lemma PlainItem(a: string, e1: string, q: string, f: string, q2: string, e2: string, l: string, e3: string, n: string,
                  e4: string, i: string, e5: string, m: string, e6: string, z: string)
    requires e1 == "" && e2 == "" && e3 == "" && e4 == "" && e5 == "" && e6 == ""
    ensures a + e1 + q + f + q2 + e2 + l + e3 + n + e4 + i + e5 + m + e6 + z == a + q + f + q2 + l + n + i + m + z
  {
    assert a + e1 == a;
    assert a + q + f + q2 + e2 == a + q + f + q2;
    assert a + q + f + q2 + l + e3 == a + q + f + q2 + l;
    assert a + q + f + q2 + l + n + e4 == a + q + f + q2 + l + n;
    assert a + q + f + q2 + l + n + i + e5 == a + q + f + q2 + l + n + i;
    assert a + q + f + q2 + l + n + i + m + e6 == a + q + f + q2 + l + n + i + m;
  }

  /** The last entry's template with its colour fields `e0` to `e7` empty. */
  lemma PlainLastItem(e0: string, a: string, e1: string, q: string, f: string, q2: string, e2: string, l: string, e3: string, n: string,
                      e4: string, i: string, e5: string, m: string, e6: string, e7: string, z: string)
    requires e0 == "" && e1 == "" && e2 == "" && e3 == "" && e4 == "" && e5 == "" && e6 == "" && e7 == ""
    ensures e0 + a + e1 + q + f + q2 + e2 + l + e3 + n + e4 + i + e5 + m + e6 + e7 + z == a + q + f + q2 + l + n + i + m + z
  {
    assert e0 + a == a;
    assert a + e1 == a;
    assert a + q + f + q2 + e2 == a + q + f + q2;
    assert a + q + f + q2 + l + e3 == a + q + f + q2 + l;
    assert a + q + f + q2 + l + n + e4 == a + q + f + q2 + l + n;
    assert a + q + f + q2 + l + n + i + e5 == a + q + f + q2 + l + n + i;
    assert a + q + f + q2 + l + n + i + m + e6 == a + q + f + q2 + l + n + i + m;
    assert a + q + f + q2 + l + n + i + m + e7 == a + q + f + q2 + l + n + i + m;
  }

  // ---------------------------------------------------------------------------
  // The caret under a syntax error

  /** Each whitespace character kept (so tabs line up), every other replaced by a space. */
  function Blanked(s: string): (r: string)
    ensures |r| == |s|
    ensures forall k :: 0 <= k < |s| ==> r[k] == (if IsSpace(s[k]) then s[k] else ' ')
  {
    if s == [] then [] else Blanked(s[..|s| - 1]) + [if IsSpace(s[|s| - 1]) then s[|s| - 1] else ' ']
  }

  /** The text in front of the caret: the indent of the source line, then the blanked text up to the error column. */
  function CaretPrefix(line: string, offset: int): string
  {
    "    " + Blanked(PySlice(line, LeadingSpaces(line), offset - 1))
  }

  /** The caret line for a syntax error at column `offset` (counted from 1). */
  function CaretLine(c: TBColors, line: string, offset: int): string
  {
    c.caret + CaretPrefix(line, offset) + "^" + c.normal + "\n"
  }

  /** The `while` loop over the leading whitespace and the `for` loop that blanks the text before the column. */
  method CaretText(c: TBColors, line: string, offset: int) returns (text: string)
    ensures text == CaretLine(c, line, offset)
  {
    var i := 0;
    while i < |line| && IsSpace(line[i])
      invariant 0 <= i <= |line|
      invariant forall k :: 0 <= k < i ==> IsSpace(line[k])
    {
      i := i + 1;
    }
    assert i == LeadingSpaces(line);
    var s := "    ";
    var part := PySlice(line, i, offset - 1);
    for k := 0 to |part|
      invariant s == "    " + Blanked(part[..k])
    {
      assert part[..k + 1][..k] == part[..k];
      if IsSpace(part[k]) {
        s := s + [part[k]];
      } else {
        s := s + " ";
      }
    }
    assert part[..|part|] == part;
    text := c.caret + s + "^" + c.normal + "\n";
  }

  /**
   * The caret points at the offending character: when the column falls inside
   * the stripped source line, the `^` comes at the position that character
   * has in the displayed line `"    " + line.strip()`, and everything before
   * it is whitespace.
   */
  lemma CaretUnderColumn(line: string, offset: int)
    requires LeadingSpaces(line) < offset <= LeadingSpaces(line) + |Strip(line)|
    ensures var p := CaretPrefix(line, offset); var shown := "    " + Strip(line);
      && |p| < |shown|
      && shown[|p|] == line[offset - 1]
      && forall k :: 0 <= k < |p| ==> IsSpace(p[k])
  {
    CaretPrefixLength(line, offset);
    CaretPrefixBlank(line, offset);
    ShownAtColumn(line, offset);
  }

  lemma CaretPrefixLength(line: string, offset: int)
    requires LeadingSpaces(line) < offset <= |line|
    ensures |CaretPrefix(line, offset)| == 4 + (offset - 1 - LeadingSpaces(line))
  {
    PySliceNatural(line, LeadingSpaces(line), offset - 1);
  }

  lemma CaretPrefixBlank(line: string, offset: int)
    ensures forall k :: 0 <= k < |CaretPrefix(line, offset)| ==> IsSpace(CaretPrefix(line, offset)[k])
  {
    forall k | 0 <= k < |CaretPrefix(line, offset)|
      ensures IsSpace(CaretPrefix(line, offset)[k])
    {
      if k >= 4 {
        assert CaretPrefix(line, offset)[k] == Blanked(PySlice(line, LeadingSpaces(line), offset - 1))[k - 4];
      }
    }
  }

  lemma ShownAtColumn(line: string, offset: int)
    requires LeadingSpaces(line) < offset <= LeadingSpaces(line) + |Strip(line)|
    ensures ("    " + Strip(line))[4 + (offset - 1 - LeadingSpaces(line))] == line[offset - 1]
  {
    IndexAfterPrefix("    ", Strip(line), offset - 1 - LeadingSpaces(line), 4 + (offset - 1 - LeadingSpaces(line)));
    StripAt(line, offset - 1 - LeadingSpaces(line), offset - 1);
  }

  /** Character `j` of the stripped line is character `n == LeadingSpaces(line) + j` of the line. */
  lemma StripAt(line: string, j: int, n: int)
    requires 0 <= j < |Strip(line)| && n == LeadingSpaces(line) + j
    ensures Strip(line)[j] == line[n]
  {
  }

  // ---------------------------------------------------------------------------
  // The exception lines

  /**
   * The exception type: a class, with its name, the text `str()` gives for it
   * and whether it derives from `str` or is `SyntaxError` itself; or an old
   * string exception, a `str` instance raised in place of a class.
   */
  datatype ExcType =
    | ExcClass(name: string, classText: string, strSubclass: bool, isSyntaxError: bool)
    | StringExc(text: string)

  /**
   * What unpacking a `SyntaxError` value as `msg, (filename, lineno, offset, line)`
   * gives; `lineno` is `None` for an error raised without a line number.
   */
  datatype SyntaxDetails = SyntaxDetails(msg: string, filename: string, lineno: Option<int>, offset: Option<int>, line: Option<string>)

  /** The attributes `filename`, `lineno` and `msg` of a `SyntaxError` value. */
  datatype SyntaxAttrs = SyntaxAttrs(filename: string, lineno: Option<int>, msg: string)

  /**
   * The exception value: `None`, or a value with the text `_some_str` gives
   * for it, what unpacking it gives (`None` when it cannot be unpacked), and
   * its syntax-error attributes (`None` when it has none).
   */
  datatype ExcValue =
    | NoValue
    | Value(text: string, details: Option<SyntaxDetails>, attrs: Option<SyntaxAttrs>)

  predicate IsSyntaxError(etype: ExcType)
  {
    etype.ExcClass? && etype.isSyntaxError
  }

  /**
   * When `_format_exception_only` raises: `issubclass` on a string exception,
   * and `'%d' % lineno` on an unpacked `SyntaxError` whose line number is `None`.
   */
  predicate FormatRaises(etype: ExcType, value: ExcValue)
  {
    || etype.StringExc?
    || (IsSyntaxError(etype) && value.Value? && value.details.Some? && value.details.value.lineno.None?)
  }

  /** The coloured type name, or the class as `str()` shows it when it derives from `str`. */
  function TypeText(c: TBColors, etype: ExcType): string
    requires etype.ExcClass?
  {
    if etype.strSubclass then etype.classText else c.excName + etype.name + c.normal
  }

  /** The lines showing where a syntax error is, and the message that replaces the value's text. */
  function SyntaxLines(c: TBColors, d: SyntaxDetails): seq<string>
    requires d.lineno.Some?
  {
    var filename := if d.filename == "" then "<string>" else d.filename;
    var fileLine := c.normalEm + "  File " + c.filenameEm + "\"" + filename + "\"" + c.normalEm
      + ", line " + c.linenoEm + IntToString(d.lineno.value) + c.normal + "\n";
    if d.line.None? then [fileLine]
    else
      var sourceLine := c.line + "    " + Strip(d.line.value) + c.normal + "\n";
      [fileLine, sourceLine] + (if d.offset.Some? then [CaretLine(c, d.line.value, d.offset.value)] else [])
  }

  /** The message shown after the type: the unpacked message once the source line was shown, else the whole value. */
  function MessageText(etype: ExcType, value: ExcValue): string
    requires value.Value?
  {
    if IsSyntaxError(etype) && value.details.Some? && value.details.value.line.Some? then value.details.value.msg
    else value.text
  }

  /** The exception line itself, which ends with a newline only when there is no value. */
  function ExceptionLine(c: TBColors, etype: ExcType, value: ExcValue): string
    requires etype.ExcClass?
  {
    var stype := TypeText(c, etype);
    if value.NoValue? then stype + "\n"
    else
      var s := MessageText(etype, value);
      if s != "" then stype + c.excName + ":" + c.normal + " " + s else stype
  }

  /** `_format_exception_only`. `None` stands for the TypeError it raises, as `FormatRaises` says. */
  function ExceptionOnly(c: TBColors, etype: ExcType, value: ExcValue): (r: Option<seq<string>>)
    ensures r.None? <==> FormatRaises(etype, value)
    ensures !FormatRaises(etype, value) ==> r.Some? && |r.value| > 0 && r.value[|r.value| - 1] == ExceptionLine(c, etype, value)
  {
    if FormatRaises(etype, value) then None
    else
      var located := if value.Value? && IsSyntaxError(etype) && value.details.Some?
        then SyntaxLines(c, value.details.value) else [];
      Some(located + [ExceptionLine(c, etype, value)])
  }

  /**
   * A syntax error with a source line and a column is shown in four lines:
   * where it is, the line, the caret, and the type with the error's own message.
   */
  lemma SyntaxErrorLines(c: TBColors, etype: ExcType, text: string, d: SyntaxDetails, attrs: Option<SyntaxAttrs>)
    requires IsSyntaxError(etype) && d.lineno.Some? && d.line.Some? && d.offset.Some?
    ensures var r := ExceptionOnly(c, etype, Value(text, Some(d), attrs));
      && r.Some? && |r.value| == 4
      && r.value[2] == CaretLine(c, d.line.value, d.offset.value)
      && r.value[3] == (if d.msg != "" then TypeText(c, etype) + c.excName + ":" + c.normal + " " + d.msg else TypeText(c, etype))
  {
  }

  /**
   * When the source line is missing, the message is not substituted: the
   * value's whole text follows the type, and only the file line precedes it.
   */
  lemma SyntaxErrorWithoutLine(c: TBColors, etype: ExcType, text: string, d: SyntaxDetails, attrs: Option<SyntaxAttrs>)
    requires IsSyntaxError(etype) && d.lineno.Some? && d.line.None? && text != ""
    ensures var r := ExceptionOnly(c, etype, Value(text, Some(d), attrs));
      r.Some? && |r.value| == 2 && r.value[1] == TypeText(c, etype) + c.excName + ":" + c.normal + " " + text
  {
  }

  /**
   * An unpacked syntax error without a line number cannot be shown: its
   * location line formats the missing number with `%d`, whatever else it holds.
   */
  lemma SyntaxErrorWithoutLineNumber(c: TBColors, etype: ExcType, value: ExcValue, elist: seq<TbEntry>)
    requires IsSyntaxError(etype) && value.Value? && value.details.Some? && value.details.value.lineno.None?
    ensures ExceptionOnly(c, etype, value).None?
    ensures ListText(c, etype, value, elist).None?
  {
  }

  /**
   * Every other exception class gives the exception line alone; a string
   * exception gives nothing, because the `issubclass` test raises.
   */
  lemma OtherExceptionsOneLine(c: TBColors, etype: ExcType, value: ExcValue)
    requires !IsSyntaxError(etype) || value.NoValue? || value.details.None?
    ensures etype.ExcClass? ==> ExceptionOnly(c, etype, value) == Some([ExceptionLine(c, etype, value)])
    ensures etype.StringExc? ==> ExceptionOnly(c, etype, value) == None
  {
    if etype.ExcClass? {
      AppendToNothing([ExceptionLine(c, etype, value)]);
    }
  }

  // ---------------------------------------------------------------------------
  // ListTB.text

  /** The header: the title and the entries when there are any, a rule otherwise. */
  function Header(c: TBColors, elist: seq<TbEntry>): seq<string>
  {
    if |elist| > 0 then ["Traceback " + c.normalEm + "(most recent call last)" + c.normal + ":" + "\n"] + FormattedList(c, elist)
    else [c.topline + Repeat('-', 60) + c.normal + "\n"]
  }

  /** Every exception line but the last indented by one space, then the last as it is. */
  function IndentAllButLast(lines: seq<string>): (r: seq<string>)
    requires |lines| > 0
    ensures |r| == |lines|
    ensures forall k :: 0 <= k < |lines| - 1 ==> r[k] == " " + lines[k]
    ensures r[|r| - 1] == lines[|lines| - 1]
  {
    seq(|lines| - 1, k requires 0 <= k < |lines| - 1 => " " + lines[k]) + [lines[|lines| - 1]]
  }

  /**
   * `ListTB.text`, `elist` being empty when there is no traceback; `None`
   * when `_format_exception_only` raises, exactly when `FormatRaises` holds.
   */
  function ListText(c: TBColors, etype: ExcType, value: ExcValue, elist: seq<TbEntry>): (r: Option<string>)
    ensures r.Some? <==> !FormatRaises(etype, value)
  {
    match ExceptionOnly(c, etype, value)
    case None => None
    case Some(lines) => Some(Concat(Header(c, elist) + IndentAllButLast(lines)))
  }

  /** The loop over `lines[:-1]`, then the last line. */
  method IndentExceptionLines(lines: seq<string>) returns (out: seq<string>)
    requires |lines| > 0
    ensures out == IndentAllButLast(lines)
  {
    out := [];
    for k := 0 to |lines| - 1
      invariant |out| == k
      invariant forall j :: 0 <= j < k ==> out[j] == " " + lines[j]
    {
      out := out + [" " + lines[k]];
    }
    out := out + [lines[|lines| - 1]];
  }

  /** `ListTB.text` builds `out_string` and joins it; `None` when the exception lines cannot be formatted. */
  method ListTbText(c: TBColors, etype: ExcType, value: ExcValue, elist: seq<TbEntry>) returns (text: Option<string>)
    ensures text == ListText(c, etype, value, elist)
  {
    var outString: seq<string> := [];
    if |elist| > 0 {
      AppendToNothing(["Traceback " + c.normalEm + "(most recent call last)" + c.normal + ":" + "\n"]);
      outString := outString + ["Traceback " + c.normalEm + "(most recent call last)" + c.normal + ":" + "\n"];
      var list := FormatList(c, elist);
      outString := outString + list;
    } else {
      AppendToNothing([c.topline + Repeat('-', 60) + c.normal + "\n"]);
      outString := outString + [c.topline + Repeat('-', 60) + c.normal + "\n"];
    }
    assert outString == Header(c, elist);
    var lines := ExceptionOnly(c, etype, value);
    if lines.None? {
      return None;
    }
    var shown := IndentExceptionLines(lines.value);
    outString := outString + shown;
    text := Some(Concat(outString));
  }

  /** The plain traceback, whenever there is one, ends with the exception line. */
  lemma ListTextEndsWithException(c: TBColors, etype: ExcType, value: ExcValue, elist: seq<TbEntry>)
    requires !FormatRaises(etype, value)
    ensures var t := ListText(c, etype, value, elist).value; var e := ExceptionLine(c, etype, value);
      |e| <= |t| && t[|t| - |e|..] == e
  {
    LastOfJoin(Header(c, elist), IndentAllButLast(ExceptionOnly(c, etype, value).value));
    ConcatEndsWith(Header(c, elist) + IndentAllButLast(ExceptionOnly(c, etype, value).value), ExceptionLine(c, etype, value));
  }
}
