# tbtools traceback formatting, debugger listing and source highlighting in Dafny

This project models the text-producing core of `tbtools`, a Python 2
package with three parts:

- Coloured exception tracebacks (`ultraTB`):
  - the plain listing of `ListTB`, with a caret under a syntax error;
  - the verbose report of `VerboseTB`, with a numbered source window per frame and the values of the names on the failing line;
  - the syntax-error report of `SyntaxTB`;
  - the mode and colour state of `FormattedTB`, `TBTools` and `AutoFormattedTB`.
- An IPython-style debugger (`Debugger`): stack entries, `list`, post-mortem entry.
- An ANSI source highlighter (`PyColorize`).

Each module follows one part of the source:

| file | module | source |
|---|---|---|
| `text.dfy` | `Text`, `Gutter` | Python string operations the code relies on (`strip`, `rjust`, `'%*s'`, `find`, slicing with negative indices, `join`), and the arrow-and-number gutter shared by `_formatTracebackLines` and `Pdb.__format_line` |
| `tokens.dfy` | `Tokens`, `ExceptionColors` | token numbers of Python 2's `token`/`tokenize`; the colour roles of a scheme |
| `uniq.dfy` | `UniqStable` | `uniq_stable` |
| `names.dfy` | `NameExtractor` | the `tokeneater` callback that builds dotted names |
| `resolve.dfy` | `NameResolution` | the loop that looks each name up among locals or globals |
| `windows.dfy` | `SourceWindows` | `_fixed_getinnerframes` and the syntax-error window |
| `tblines.dfy` | `TracebackLines` | `_formatTracebackLines` |
| `listtb.dfy` | `ListTraceback` | `_format_list`, `_format_exception_only`, `ListTB.text` |
| `verbose.dfy` | `Reports` | `VerboseTB.text`, `FormattedTB.text`, `SyntaxTB.text` |
| `printers.dfy` | `Printers` | the shared scheme table, `set_colors`, `color_toggle`, `set_mode`, `SyntaxTB`'s error state, `AutoFormattedTB.__call__` |
| `debugger.dfy` | `Debugger` | `format_stack_entry`, `__format_line`, `do_list`, `post_mortem`, `interaction` |
| `pycolorize.dfy` | `PyColorize` | `Parser.format`, `Parser.__call__` |

Code that loops or updates state is modelled as methods. Each method is proved equal to a specification function, and the properties are lemmas about those functions. Examples:

- `uniq_stable`, `_formatTracebackLines`, the caret loop, the `list` loop, the line-offset loop and the token handler are methods.
- The `tokeneater` state, the debugger, the printers and the parser are classes.
- The frame records that `_fixed_getinnerframes` rewrites are an array.

Some behaviour of the code is kept as written, and lemmas state it:

- **Front padding in `_fixed_getinnerframes`** (`SourceWindows.InnerWindowPadded`, `SourceWindows.InnerWindowPaddedExample`). Near the top of a file the blank lines are added on top of a window that already starts at line 1. The lines are then shifted against their numbers.
- **Syntax-error window** (`SourceWindows.SyntaxWindowCentred`, `SourceWindows.SyntaxWindowNearTop`).
  - Its slice stops one line early, so the last line of the window is always padding.
  - Near the top of a long file, the negative start makes the window all blank.
- **`format_stack_entry` on a file shorter than its context** (`Debugger.EntryWindowShortFile`). The window start goes negative, so only the file's last lines are shown, numbered from zero or below.
- **`del elist[:tb_offset]`** happens only when the list is longer than the offset (`Reports.DroppedEntriesKeepInnermost`).
- **The offset override in `AutoFormattedTB.__call__`** is put back only after the report was printed (`Printers.AutoFormattedTB.Call`).

## Model

| member | source | states |
|---|---|---|
| UniqStable.UniqStable | tbtools/ultraTB.py:98-118 | the loop with `unique` and `unique_dict` returns the stable de-duplication of the input |
| UniqStable.UniqSameElements | tbtools/ultraTB.py:101-103 | an element is in the result exactly when it is in the input |
| UniqStable.UniqNoDuplicates | tbtools/ultraTB.py:101-103 | the result holds no element twice |
| UniqStable.UniqFirstAppearanceOrder | tbtools/ultraTB.py:101-106 | the kept elements are ordered by their first index in the input |
| UniqStable.FirstIndex | tbtools/ultraTB.py:101-106 | the index returned holds the element and no earlier index does |
| NameExtractor.NameCollector.Eat | tbtools/ultraTB.py:542-577 | one callback: `.` extends the last name and sets the continuation flag; a non-keyword NAME continues or starts a name; NEWLINE, or a continuation with no name, stops the tokenizer |
| NameExtractor.ExtractNames | tbtools/ultraTB.py:584-600 | feeding the tokens until the callback stops, then `uniq_stable`, gives the names of the line |
| NameExtractor.ScanKeepsText | tbtools/ultraTB.py:551-574 | read end to end, the names are the kept token texts in order: no text is lost or invented |
| NameExtractor.DottedNamesKeepText | tbtools/ultraTB.py:540-592 | the same, for the name list the verbose formatter builds from an empty list |
| NameExtractor.NoKeywordNames | tbtools/ultraTB.py:560 | no keyword is ever reported as a name |
| NameExtractor.ScanStopsAtNewline | tbtools/ultraTB.py:573-574 | tokens from the first NEWLINE on do not affect the names |
| NameExtractor.LineNamesStopAtNewline | tbtools/ultraTB.py:573-592 | the names of a line are those of its tokens before the first NEWLINE |
| NameExtractor.LineNamesAreUnique | tbtools/ultraTB.py:599-600 | the pruned names have no duplicates and are the names collected |
| NameResolution.NameBase | tbtools/ultraTB.py:606 | the base is the longest dot-free prefix of the name |
| NameResolution.LineValues | tbtools/ultraTB.py:602-629 | the loop over names builds `lvals` as the specification's listing: the entries joined by `em_normal` after the indent, or empty |
| NameResolution.EntriesAt | tbtools/ultraTB.py:605-625 | entry `k` of `lvals` is the entry of the `k`-th name |
| NameResolution.LocalIgnoresGlobals | tbtools/ultraTB.py:607-615 | a name whose base is a code variable is looked up in the locals only and shown without a label |
| NameResolution.GlobalIgnoresLocals | tbtools/ultraTB.py:616-624 | any other name is looked up in the globals only and labelled `global` |
| NameResolution.UnboundIsUndefined | tbtools/ultraTB.py:613-614 | a base the chosen namespace does not bind shows `undefined` |
| NameResolution.EntryNoColor | tbtools/ultraTB.py:491-493 | without colours an entry reads `[global ]name = value`, with `undefined` for a missing value |
| NameResolution.LocalsTextEmpty | tbtools/ultraTB.py:604-629 | `lvals` is empty exactly when variables are not included or the line has no names |
| SourceWindows.WindowOf | tbtools/ultraTB.py:140-151 | the slice, front padding and end padding give the window and index of one record |
| SourceWindows.InnerWindow | tbtools/ultraTB.py:140-151 | the window holds at least `context` lines and the index is `lnum - 1 - start` |
| SourceWindows.InnerWindowAligned | tbtools/ultraTB.py:140-148 | away from the top, the window is exactly `context` consecutive file lines (blank past the end) with the failing line at `context // 2` |
| SourceWindows.InnerWindowPadded | tbtools/ultraTB.py:140-148 | near the top, front padding is added to a window starting at line 1, shifting each line `pad` positions from its number |
| SourceWindows.InnerWindowPaddedExample | tbtools/ultraTB.py:140-148 | line 1 with context 5 shows two blank lines and then file lines 1 to 5, index 0 |
| SourceWindows.FixInnerFrames | tbtools/ultraTB.py:120-154 | console or `<string>` input returns the records from the offset unchanged; otherwise every record is rewritten with its window and the rewritten records from the offset are returned |
| SourceWindows.RewriteRecords | tbtools/ultraTB.py:139-153 | every record of the array is replaced by its record with line number, window and index set |
| SourceWindows.FixRecords | tbtools/ultraTB.py:139-153 | record `i` becomes its own record with the window of entry `i` |
| SourceWindows.SyntaxWindow | tbtools/ultraTB.py:801-807 | the window always holds `2 * (context // 2) + 1` lines |
| SourceWindows.SyntaxWindowLines | tbtools/ultraTB.py:801-807 | the slice and the padding loop produce the window |
| SourceWindows.SyntaxWindowCentred | tbtools/ultraTB.py:801-809 | away from both ends the window is the `c` lines before, the line at position `c`, `c - 1` lines after and one blank line |
| SourceWindows.SyntaxWindowEndsBlank | tbtools/ultraTB.py:804-807 | the last line of the window is always blank padding |
| SourceWindows.SyntaxWindowNearTop | tbtools/ultraTB.py:804-807 | on one of the first `c` lines of a long file the window is all blank |
| Gutter.ArrowMarker | tbtools/ultraTB.py:169-177 | the marker takes exactly the spare columns |
| Gutter.ArrowMarkerShape | tbtools/ultraTB.py:170-177 | the marker is dashes ending in `> `, cut to `>` for one column |
| Gutter.GutterWidths | tbtools/ultraTB.py:163-184 | arrowed and plain numbers take the same width, filling seven columns when the number fits, and the arrowed text ends with the number |
| Gutter.ArrowColumns | tbtools/Debugger.py:330-343 | after a breakpoint mark the arrowed number ends with the number, fills seven columns when both fit, and holds an arrow exactly when a column is spare |
| Gutter.PlainColumns | tbtools/Debugger.py:344-346 | after a mark the plain number is right-justified in the remaining columns (left-justified when the mark is wider) and holds no arrow |
| TracebackLines.FormatTracebackLines | tbtools/ultraTB.py:160-190 | the loop with counter `i` returns the listing numbered so that position `index` carries `lnum`, with `lvals` after the failing line |
| TracebackLines.NumberedLinesAt | tbtools/ultraTB.py:165-189 | listing line `k` is source line `k` numbered `lnum - index + k` |
| TracebackLines.ListingLayout | tbtools/ultraTB.py:165-190 | one line per source line in order, plus exactly one `lvals` line right after the failing line when `lvals` is not empty and the line is in the window |
| TracebackLines.GutterMarksFailingLine | tbtools/ultraTB.py:163-184 | the gutter is seven columns (wider only for a longer number), ends with the number, and holds an arrow exactly on the failing line when there is room |
| TracebackLines.NumberedLineNoColor | tbtools/ultraTB.py:178-184 | without colours a line is its gutter, a space and the source line |
| ListTraceback.FormatList | tbtools/ultraTB.py:271-306 | the loop over all entries but the last, then the emphasised last entry, gives the formatted list |
| ListTraceback.FormatEntry | tbtools/ultraTB.py:286-293 | one entry is the `File`/`line`/`in` line, followed by the stripped source line when there is one |
| ListTraceback.FormatLastEntry | tbtools/ultraTB.py:295-305 | the last entry, in the emphasised colours |
| ListTraceback.FormattedList | tbtools/ultraTB.py:271-306 | one string per entry, in order, the last in the emphasised form |
| ListTraceback.FormattedListOf | tbtools/ultraTB.py:285-306 | the formatted entries before the last, then the last, make the list |
| ListTraceback.EntriesEndWithNewline | tbtools/ultraTB.py:276-279 | each formatted entry ends with a newline |
| ListTraceback.EntryNoColor | tbtools/ultraTB.py:287-301 | without colours and source text an entry reads `  File "f", line n, in name`, the same for the last entry |
| ListTraceback.Blanked | tbtools/ultraTB.py:352-356 | each whitespace character is kept, every other becomes a space |
| ListTraceback.CaretText | tbtools/ultraTB.py:344-358 | the whitespace loop and the blanking loop give the caret line |
| ListTraceback.CaretUnderColumn | tbtools/ultraTB.py:343-358 | when the column falls inside the stripped line, the caret sits under that character of the displayed line and only whitespace precedes it |
| ListTraceback.ExceptionOnly | tbtools/ultraTB.py:308-366 | nothing exactly when the code raises TypeError: the `issubclass` test on a string exception, or `%d` on the missing line number of an unpacked `SyntaxError`; otherwise the list is never empty and ends with the exception line |
| ListTraceback.SyntaxErrorLines | tbtools/ultraTB.py:331-363 | a syntax error with line and column gives four lines: location, source, caret, and the type with the unpacked message |
| ListTraceback.SyntaxErrorWithoutLineNumber | tbtools/ultraTB.py:331-342 | an unpacked `SyntaxError` without a line number gives no exception lines and no plain report |
| ListTraceback.SyntaxErrorWithoutLine | tbtools/ultraTB.py:336-363 | without a source line only the location precedes the type, followed by the value's whole text |
| ListTraceback.OtherExceptionsOneLine | tbtools/ultraTB.py:324-366 | every other exception class gives the exception line alone, and a string exception gives nothing |
| ListTraceback.IndentAllButLast | tbtools/ultraTB.py:266-268 | all lines but the last get one leading space; the last is kept as it is |
| ListTraceback.IndentExceptionLines | tbtools/ultraTB.py:266-268 | the loop over `lines[:-1]` followed by the last line gives that indentation |
| ListTraceback.ListText | tbtools/ultraTB.py:254-269 | the plain report exists exactly when the exception lines can be formatted |
| ListTraceback.ListTbText | tbtools/ultraTB.py:254-269 | the title and entries (or a rule without a traceback), then the exception lines, joined; nothing when the exception lines raise |
| ListTraceback.ListTextEndsWithException | tbtools/ultraTB.py:265-269 | the plain traceback, whenever there is one, ends with the exception line |
| Reports.FrameTextOf | tbtools/ultraTB.py:500-637 | one record gives the link and call line and, with a window, the numbered listing with the variable values |
| Reports.FormatFrames | tbtools/ultraTB.py:500-637 | one text per record, in order |
| Reports.VerboseTbText | tbtools/ultraTB.py:397-666 | the header, the texts of the records with their windows after the offset, and the exception line |
| Reports.VerboseHeaderWidth | tbtools/ultraTB.py:457-459 | the second header line is 75 columns wide (wider only for a type name over 42 characters) and ends with the title |
| Reports.VerboseTextEndsWithException | tbtools/ultraTB.py:647-666 | the verbose report ends with `type: value` |
| Reports.DroppedEntriesKeepInnermost | tbtools/ultraTB.py:724-726 | the offset keeps the innermost entries in order; an offset at least the traceback's length keeps all of them |
| Reports.FormattedText | tbtools/ultraTB.py:708-727 | a verbose mode with at least two frames gives the verbose report; otherwise there is a report exactly when there is a traceback and its exception lines can be formatted, and it ends with the exception line |
| Reports.SingleFrameIsPlain | tbtools/ultraTB.py:714-727 | a one-frame traceback always gets the plain report |
| Reports.SyntaxText | tbtools/ultraTB.py:775-831 | a string exception never gets a report; in a plain mode the report is the plain one, present exactly when the entries could be extracted and the exception lines formatted; in a verbose mode with a line number the report ends with the coloured `SyntaxError: msg` |
| Reports.NonPythonSyntaxErrorFails | tbtools/ultraTB.py:795-799 | in a verbose mode, a syntax error with no line number takes the bail-out to the plain report and gets no report, as its location line raises |
| Reports.SyntaxListingCentred | tbtools/ultraTB.py:801-821 | the verbose syntax report numbers five lines `lineno - 2` to `lineno + 2` with the arrow in the middle, on the offending line when the file extends around it |
| Printers.ToggleTwiceRestores | tbtools/ultraTB.py:219-228 | toggling a coloured scheme goes to NoColor, and toggling again restores it |
| Printers.ToggleFromNoColor | tbtools/ultraTB.py:222-224 | from NoColor the toggle selects the remembered scheme, failing exactly when it is unknown |
| Printers.SchemeTable.SetActiveScheme | tbtools/ultraTB.py:214 | a name in the table becomes the active scheme; any other name changes nothing, where the source raises |
| Printers.TBTools.constructor | tbtools/ultraTB.py:197-205 | selects NoColor in the shared table when the output is not a terminal and the requested scheme otherwise, and remembers the requested name in both cases |
| Printers.TBTools.SetColors | tbtools/ultraTB.py:212-217 | selects the scheme in the shared table and takes its colours; an unknown name changes nothing |
| Printers.TBTools.ColorToggle | tbtools/ultraTB.py:219-228 | reads the active scheme from the shared table and performs the toggle there, remembering the scheme it leaves and taking the new scheme's colours; nothing changes when the remembered scheme is unknown |
| Printers.ModeIndex | tbtools/ultraTB.py:207-208 | the index of a valid mode in `valid_modes`, -1 exactly for any other name |
| Printers.ModeCycle | tbtools/ultraTB.py:734-737 | cycling goes Plain, Context, Verbose and back, and three cycles return to the start |
| Printers.CycleSteps | tbtools/ultraTB.py:734-744 | each cycle step, and `include_vars` only on Verbose |
| Printers.SetModeKeepsValid | tbtools/ultraTB.py:729-744 | a successful `set_mode` leaves a valid mode, with variables shown exactly in Verbose; a named mode fails exactly when it is not valid |
| Printers.AutoFormattedTB.SetMode | tbtools/ultraTB.py:729-744 | the method sets mode and `include_vars` as specified and changes nothing on a ValueError |
| Printers.SyntaxTB.Call | tbtools/ultraTB.py:765-773 | the value is remembered before the report and its newline are printed; the entry list reaches `text` as its traceback, so a non-empty list prints nothing in a plain mode or when the error has no line number |
| Printers.SyntaxTB.ClearErrState | tbtools/ultraTB.py:833-837 | returns the last error and forgets it |
| Printers.Report | tbtools/ultraTB.py:886-896 | `SyntaxError` itself gets the syntax-error report of the whole traceback, every other type the formatted report; a string exception is reported only verbosely, with at least two frames |
| Printers.AutoFormattedTB.Call | tbtools/ultraTB.py:860-884 | prints the report of the handler chosen by type, and the newline `print` adds, with the overriding offset, which is restored only when the report succeeds; for `SyntaxError` what is printed does not depend on the offset argument |
| Debugger.FormatLineShowsLastBreak | tbtools/Debugger.py:318-328 | a line with breakpoints starts with the colour and number of the last one set there |
| Debugger.FormatLineNoColor | tbtools/Debugger.py:314-348 | without colours a line is mark, number, a space and the source line |
| Debugger.GutterColumns | tbtools/Debugger.py:330-346 | the gutter starts with the mark, ends with the number, fills seven columns when both fit, and has an arrow exactly on the current line when there is room |
| Debugger.ShownName | tbtools/Debugger.py:282-285 | the shown function name is never empty |
| Debugger.EntryHeaderNoColor | tbtools/Debugger.py:271-296 | the header is the return value's repr line if any, then file and `in name(args)` (`<lambda>` for no name, `()` for no args, nothing for `?`) |
| Debugger.EntryLinesSnoc | tbtools/Debugger.py:304-309 | one more window line is numbered one past the previous ones |
| Debugger.EntryLinesNumbered | tbtools/Debugger.py:304-309 | window line `k` is shown as line `start + 1 + k` with the arrow exactly when that is `lineno` |
| Debugger.EntryWindowInFile | tbtools/Debugger.py:298-302 | in a file of at least `context` lines the window is `context` consecutive lines holding the line itself |
| Debugger.EntryWindowShortFile | tbtools/Debugger.py:298-302 | in a shorter file the start is negative and only the last `2n - context` lines are shown |
| Debugger.EntryWindowShortFileExample | tbtools/Debugger.py:298-302 | a four-line file with context five shows only its last line, numbered 0 |
| Debugger.Pdb.EntryHeaderOf | tbtools/Debugger.py:269-296 | the return-value line and the level line of a stack entry |
| Debugger.Pdb.AppendEntryLines | tbtools/Debugger.py:304-311 | the loop appends each window line formatted and numbered from `start + 1` |
| Debugger.Pdb.FormatStackEntry | tbtools/Debugger.py:256-311 | the header, then the window centred on `lineno` and clamped to the file |
| Debugger.ListedSourceBound | tbtools/Debugger.py:382-385 | `list` shows at most `last - first + 1` lines |
| Debugger.ListedSourceAt | tbtools/Debugger.py:382-392 | listed line `k` is the present file line `first + k` |
| Debugger.ListedSourceStop | tbtools/Debugger.py:383-385 | a listing shorter than its range stops at a missing line |
| Debugger.ListedLineAt | tbtools/Debugger.py:382-392 | listed line `k` is file line `first + k` formatted with the arrow exactly on the frame's line |
| Debugger.ListPairCount | tbtools/Debugger.py:357-363 | a pair whose second member is below the first counts lines: at most `count + 1` lines from `first` |
| Debugger.Pdb.ListLines | tbtools/Debugger.py:381-392 | the loop lists the lines from `first` up to `last` or the first missing line |
| Debugger.Pdb.DoList | tbtools/Debugger.py:351-395 | bounds from the argument, the cursor or the frame line; the listing is printed and the cursor moves to the last line shown; a malformed argument prints an error and leaves the cursor |
| Debugger.Pdb.ShowListing | tbtools/Debugger.py:373-395 | prints the listing and leaves the cursor on its last line, or alone when nothing was listed |
| Debugger.StackOf | tbtools/Debugger.py:169-170 | each frame paired with its current line |
| Debugger.Pdb.Interaction | tbtools/Debugger.py:168-172 | with a private frame stack the stack is that stack and the innermost frame is current; otherwise the stack from setup |
| Debugger.Pdb.PostMortem | tbtools/Debugger.py:449-456 | every link's frame is collected outermost first and the session starts on them with the innermost frame current; the colours, breakpoints, output and last command stay as they were |
| PyColorize.TokenColorChoice | tbtools/PyColorize.py:200-205 | operators and brackets take the OP colour, keywords the KEYWORD colour, other names NAME, uncoloured types the TEXT colour |
| PyColorize.WrappedOneLine | tbtools/PyColorize.py:211-216 | a one-line token is colour, text, `normal` |
| PyColorize.WrappedLines | tbtools/PyColorize.py:209-216 | a multi-line token is each line wrapped on its own, joined by line separators |
| PyColorize.WrappedNoColor | tbtools/PyColorize.py:211-216 | without colours a token is written as it is |
| PyColorize.TokenStepSpec | tbtools/PyColorize.py:181-216 | a line end writes the separator; any other token writes the gap exactly when it starts later, then its wrapped text unless it is indentation; the position moves to the token's end, or its start for indentation |
| PyColorize.Parser.Eat | tbtools/PyColorize.py:172-216 | the handler appends that step's output and moves the position |
| PyColorize.StepFaithful | tbtools/PyColorize.py:181-216 | without colours a token in place writes exactly the text from the old to the new position |
| PyColorize.RunFaithful | tbtools/PyColorize.py:153-157 | without colours a run of tokens in place writes exactly the text it covers |
| PyColorize.Parser.Feed | tbtools/PyColorize.py:153-157 | the handler's calls on each token in turn write the run's output |
| PyColorize.ExpandTabsFrom | tbtools/PyColorize.py:132 | the expanded text holds no tab |
| PyColorize.PreparedShape | tbtools/PyColorize.py:132 | the prepared text has no tab and no surrounding whitespace |
| PyColorize.PreparedNoTabs | tbtools/PyColorize.py:132 | without tabs the prepared text is the stripped source |
| PyColorize.NewlineEndsShape | tbtools/PyColorize.py:146-149 | the loop's positions follow a `\n`, increase strictly, and miss none |
| PyColorize.LineTable | tbtools/PyColorize.py:144-150 | the loop builds two zeros, the position after each `\n`, and the length |
| PyColorize.LineOffsetsBounds | tbtools/PyColorize.py:144-150 | the table starts with two zeros, ends with the length and stays within the text |
| PyColorize.LineOffsetsNewlines | tbtools/PyColorize.py:144-150 | between the ends the table lists the start of each row after the first and nothing else |
| PyColorize.LineOffsetsSorted | tbtools/PyColorize.py:144-150 | the table never decreases |
| PyColorize.FormatEnds | tbtools/PyColorize.py:156-166 | the output is the tokens' output, the error report if any, and a final `normal` and newline |
| PyColorize.ErrorReportShowsRow | tbtools/PyColorize.py:158-165 | the error report shows the message and the text from the named row's start to the end |
| PyColorize.FormatFaithful | tbtools/PyColorize.py:122-166 | without colours or errors, tokens in place make `format` write the prepared text up to the last token, then a newline |
| PyColorize.Parser.Emit | tbtools/PyColorize.py:153-166 | writes the run from position 0, the error report if any, and `normal` with a newline |
| PyColorize.Parser.Format | tbtools/PyColorize.py:122-170 | prepares the text and offsets, writes everything to the stream, or in string mode returns it and leaves the stream as it was |

## Left out

- Printing: `__call__`, `handler` and `print_stack_trace` only print what the modelled functions return. The debugger's and the parser's output is a sequence of written strings.
- Python's runtime services are inputs or parameters:
  - `linecache` is a map from file name to lines;
  - `os.path.abspath` and `canonic` are functions;
  - `inspect.getargvalues`/`formatargvalues` give the call text;
  - `eval`/`repr` of names give an optional string;
  - `tokenize` gives the token sequence, and for the highlighter an optional `TokenError`;
  - `keyword.kwlist` is a set.
- `inspect.getinnerframes` and `traceback.extract_tb` are given as records and entries. `linecache.checkcache` is left out.
- `text_repr`, `pydoc` and the `dir()` listing of instance exceptions are left out. `VerboseTB.text` closes with `exception[0]` only, so that listing never reaches the output.
- `long_header` (Python version and clock) is left out: it reads the clock and the interpreter.
- KeyboardInterrupt handling in `do_list` and `print_stack_trace` is not part of this model.
- The fallback when `str(etype)` or `str(evalue)` raises is not modelled; `_some_str` is modelled as the given text.
- The debugger's readline, rlcompleter, TextMate, `cmdloop`, `displayhook`, `_runscript`, `main`, `run*`/`set_trace`/`pm` are not modelled: they are I/O or the interpreter's own machinery.
- `Pdb.__init__` copying the colour table and `.pdbrc` reading are not modelled: the colours are a parameter.
- The bdb breakpoint table is a map from `(file, line)` to breakpoints, oldest first.
- The exception colour scheme table (`ColorANSI`) is not part of this model beyond one shared object with an exact-name lookup: a scheme is a record of escape strings, and NoColor is all empty.
- PyColorize:
  - redirecting to another stream (`elif out is not None`), `main` and the scheme-table lookup are not modelled;
  - `os.linesep` is fixed to `"\n"`;
  - the keyword set is that of Python 2.6/2.7.
- Integer widths do not matter: Python integers are unbounded like Dafny's.
- PyColorize.Parser.Format: requires every token's row to lie inside the offset table, a TEXT colour, and an ERRORTOKEN colour when there is an error. With these missing the source raises IndexError or KeyError; the model does not cover that path. The string-output request is a flag.
- PyColorize.Parser.Eat: has the same requirement for its one token.
- ListTraceback.FormatList: requires a non-empty list. `extracted_list[-1]` raises on an empty one, and `ListTB.text` only calls it with entries.
- SourceWindows.FixInnerFrames: requires as many entries as records, the source's own `assert`.
- Reports.VerboseTbText: requires the entries and records to describe the same frames, for the same reason.
- Debugger.Pdb.DoList:
  - requires a current frame; without one the source raises AttributeError once it reads the frame, while a malformed argument prints its error and returns first;
  - sets the cursor once after the loop rather than on every line, with the same final value.
- Debugger.Pdb.Interaction: requires the index from `setup` to be inside its stack, and a post-mortem stack to be non-empty, as `post_mortem` always makes it.
- Printers.TBTools.constructor: requires the requested scheme to be in the table when the output is a terminal. `set_active_scheme` raises otherwise.
- Printers.AutoFormattedTB.constructor: requires a valid mode. The source's `set_mode` raises ValueError otherwise.
