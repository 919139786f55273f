/**
 * The ANSI source highlighter: `Parser.format` prepares the text and the
 * table of line offsets, and the token handler `Parser.__call__` re-emits the
 * text between tokens unchanged and wraps each token in its colour.
 */
module PyColorize {
  import opened Text
  import opened Tokens

  // ---------------------------------------------------------------------------
  // Colour groups

  /** The pseudo token types a scheme colours keywords and unclassified text with. */
  const KEYWORD := NT_OFFSET + 1
  const TEXT := NT_OFFSET + 2

  /** `os.linesep` on a POSIX system. */
  const LINESEP := "\n"

  /** `keyword.kwlist` of Python 2.6 and 2.7. */
  const KEYWORDS: set<string> := {
    "and", "as", "assert", "break", "class", "continue", "def", "del", "elif", "else", "except",
    "exec", "finally", "for", "from", "global", "if", "import", "in", "is", "lambda", "not", "or",
    "pass", "print", "raise", "return", "try", "while", "with", "yield"}

  /** The colours of one scheme: an escape sequence per token type, and the one that turns colour off. */
  datatype CodeColors = CodeColors(table: map<int, string>, normal: string)

  /** The "NoColor" scheme: every colour is the empty string. */
  const NO_COLOR := CodeColors(
    map[NUMBER := "", OP := "", STRING := "", COMMENT := "", NAME := "", ERRORTOKEN := "", KEYWORD := "", TEXT := ""],
    "")

  /** A scheme whose every colour, `normal` included, is empty. */
  predicate Colorless(colors: CodeColors)
  {
    colors.normal == "" && forall k :: k in colors.table ==> colors.table[k] == ""
  }

  /** Operators and brackets share one colour, keywords get their own, every other type keeps its own. */
  function ColorGroup(kind: int, text: string): int
  {
    if LPAR <= kind <= OP then OP
    else if kind == NAME && text in KEYWORDS then KEYWORD
    else kind
  }

  /** The colour of a token: its group's, or the `TEXT` colour for a group the scheme leaves out. */
  function TokenColor(colors: CodeColors, tok: Token): string
    requires TEXT in colors.table
  {
    var group := ColorGroup(tok.kind, tok.text);
    if group in colors.table then colors.table[group] else colors.table[TEXT]
  }

  /**
   * The colour of a token follows its type: operators and brackets take the
   * `OP` colour, keywords the `KEYWORD` colour, other names the `NAME`
   * colour, and any type the scheme does not colour the `TEXT` colour.
   */
  lemma TokenColorChoice(colors: CodeColors, tok: Token)
    requires TEXT in colors.table
    ensures var c := TokenColor(colors, tok);
      && (LPAR <= tok.kind <= OP ==> c == (if OP in colors.table then colors.table[OP] else colors.table[TEXT]))
      && (tok.kind == NAME && tok.text in KEYWORDS ==> c == (if KEYWORD in colors.table then colors.table[KEYWORD] else colors.table[TEXT]))
      && (tok.kind == NAME && tok.text !in KEYWORDS ==> c == (if NAME in colors.table then colors.table[NAME] else colors.table[TEXT]))
      && (!(LPAR <= tok.kind <= OP) && tok.kind != NAME ==> c == (if tok.kind in colors.table then colors.table[tok.kind] else colors.table[TEXT]))
      && (Colorless(colors) ==> c == "")
  {
  }

  // ---------------------------------------------------------------------------
  // Wrapping a token

  /** `s.replace('\n', rep)`. */
  function ReplaceNewlines(s: string, rep: string): string
  {
    if s == [] then [] else (if s[0] == '\n' then rep else [s[0]]) + ReplaceNewlines(s[1..], rep)
  }

  /** Replacing distributes over concatenation. */
  lemma {:induction false} ReplaceNewlinesAppend(a: string, b: string, rep: string)
    ensures ReplaceNewlines(a + b, rep) == ReplaceNewlines(a, rep) + ReplaceNewlines(b, rep)
    decreases |a|
  {
    if a != [] {
      assert (a + b)[0] == a[0];
      assert (a + b)[1..] == a[1..] + b;
      ReplaceNewlinesAppend(a[1..], b, rep);
    } else {
      assert a + b == b;
    }
  }

  /** A text without a line separator is left as it is. */
  lemma {:induction false} ReplaceNewlinesNone(s: string, rep: string)
    requires '\n' !in s
    ensures ReplaceNewlines(s, rep) == s
    decreases |s|
  {
    if s != [] {
      assert s[1..] == s[1..] && '\n' !in s[1..];
      ReplaceNewlinesNone(s[1..], rep);
      assert s == [s[0]] + s[1..];
    }
  }

  /** Replacing each separator by itself changes nothing. */
  lemma {:induction false} ReplaceNewlinesSame(s: string)
    ensures ReplaceNewlines(s, "\n") == s
    decreases |s|
  {
    if s != [] {
      ReplaceNewlinesSame(s[1..]);
      assert s == [s[0]] + s[1..];
    }
  }

  /** A token as written: its colour, the text with every line ended by `normal` and resumed by the colour, and `normal`. */
  function Wrapped(colors: CodeColors, color: string, text: string): string
  {
    color + (if '\n' in text then ReplaceNewlines(text, colors.normal + LINESEP + color) else text) + colors.normal
  }

  /** A one-line token is its colour, its text and `normal`. */
  lemma WrappedOneLine(colors: CodeColors, color: string, a: string)
    requires '\n' !in a
    ensures Wrapped(colors, color, a) == color + a + colors.normal
  {
  }

  /**
   * A token that spans several lines is written as each line wrapped in the
   * colour on its own, joined by line separators, so that every line carries
   * its own colour terminator.
   */
  lemma WrappedLines(colors: CodeColors, color: string, a: string, b: string)
    ensures Wrapped(colors, color, a + LINESEP + b) == Wrapped(colors, color, a) + LINESEP + Wrapped(colors, color, b)
  {
    var rep := colors.normal + LINESEP + color;
    var ra, rb := ReplaceNewlines(a, rep), ReplaceNewlines(b, rep);
    WrappedReplaces(colors, color, a);
    WrappedReplaces(colors, color, b);
    WrappedReplaces(colors, color, a + LINESEP + b);
    ReplaceNewlinesAppend(a, LINESEP + b, rep);
    ReplaceNewlinesAppend(LINESEP, b, rep);
    assert a + LINESEP + b == a + (LINESEP + b);
    assert ReplaceNewlines(LINESEP, rep) == rep + ReplaceNewlines([], rep);
    assert ReplaceNewlines(a + LINESEP + b, rep) == ra + (rep + rb);
    Regroup(color, ra, colors.normal, LINESEP, rb);
  }

  lemma Regroup(c: string, x: string, n: string, l: string, y: string)
    ensures c + (x + ((n + l + c) + y)) + n == (c + x + n) + l + (c + y + n)
  {
  }

  /** Without colours a token is written as it is. */
  lemma WrappedNoColor(colors: CodeColors, text: string)
    requires colors.normal == ""
    ensures Wrapped(colors, "", text) == text
  {
    WrappedReplaces(colors, "", text);
    ReplaceNewlinesSame(text);
    assert colors.normal + LINESEP + "" == "\n";
  }

  /** Whether or not the text holds a separator, the token is its colour, the replaced text and `normal`. */
  lemma WrappedReplaces(colors: CodeColors, color: string, text: string)
    ensures Wrapped(colors, color, text) == color + ReplaceNewlines(text, colors.normal + LINESEP + color) + colors.normal
  {
    if '\n' !in text {
      ReplaceNewlinesNone(text, colors.normal + LINESEP + color);
    }
  }

  // ---------------------------------------------------------------------------
  // The token handler

  /** What one token writes, and the position in the text it leaves behind. */
  datatype Step = Step(written: seq<string>, pos: int)

  predicate IsLineEnd(kind: int) { kind == NEWLINE || kind == NL }

  predicate IsIndentation(kind: int) { kind == INDENT || kind == DEDENT }

  /**
   * What the handler needs of a token: a start row inside the offset table,
   * and a `TEXT` colour in the scheme for every token that gets coloured.
   */
  predicate Accepts(lines: seq<int>, colors: CodeColors, tok: Token)
  {
    tok.srow < |lines| && (IsLineEnd(tok.kind) || IsIndentation(tok.kind) || TEXT in colors.table)
  }

  /** Every token of a run is one the handler accepts. */
  predicate AllAccepted(lines: seq<int>, colors: CodeColors, toks: seq<Token>)
  {
    forall i :: 0 <= i < |toks| ==> Accepts(lines, colors, toks[i])
  }

  /** Where a token starts in the text: its row's offset plus its column. */
  function NewPos(lines: seq<int>, tok: Token): int
    requires tok.srow < |lines|
  {
    lines[tok.srow] + tok.scol
  }

  /** The handler applied to one token with the position `oldpos` after the previous one. */
  function TokenStep(raw: string, lines: seq<int>, colors: CodeColors, oldpos: int, tok: Token): Step
    requires Accepts(lines, colors, tok)
  {
    var newpos := NewPos(lines, tok);
    if IsLineEnd(tok.kind) then Step([LINESEP], newpos + |tok.text|)
    else
      var gap := if newpos > oldpos then [PySlice(raw, oldpos, newpos)] else [];
      if IsIndentation(tok.kind) then Step(gap, newpos)
      else Step(gap + [Wrapped(colors, TokenColor(colors, tok), tok.text)], newpos + |tok.text|)
  }

  /**
   * Every token moves the position to its own end, except an indentation
   * token, which leaves it at its start. A line end writes the line
   * separator and nothing else. Every other token first writes the original
   * text between the previous token and itself, exactly when it starts after
   * the previous position, and then, unless it is an indentation token, its
   * text wrapped in its colour.
   */
  lemma TokenStepSpec(raw: string, lines: seq<int>, colors: CodeColors, oldpos: int, tok: Token)
    requires Accepts(lines, colors, tok)
    ensures var st := TokenStep(raw, lines, colors, oldpos, tok); var newpos := lines[tok.srow] + tok.scol;
      && st.pos == (if IsIndentation(tok.kind) then newpos else newpos + |tok.text|)
      && (IsLineEnd(tok.kind) ==> st.written == [LINESEP])
      && (!IsLineEnd(tok.kind) ==>
            && |st.written| == (if newpos > oldpos then 1 else 0) + (if IsIndentation(tok.kind) then 0 else 1)
            && (newpos > oldpos ==> st.written[0] == PySlice(raw, oldpos, newpos))
            && (!IsIndentation(tok.kind) ==>
                  st.written[|st.written| - 1] == Wrapped(colors, TokenColor(colors, tok), tok.text)))
  {
  }

  /** The handler applied to each token in turn, starting from position `pos0`. */
  function Run(raw: string, lines: seq<int>, colors: CodeColors, pos0: int, toks: seq<Token>): (r: Step)
    requires AllAccepted(lines, colors, toks)
  {
    if toks == [] then Step([], pos0)
    else
      var before := Run(raw, lines, colors, pos0, toks[..|toks| - 1]);
      var last := TokenStep(raw, lines, colors, before.pos, toks[|toks| - 1]);
      Step(before.written + last.written, last.pos)
  }

  // ---------------------------------------------------------------------------
  // Faithful re-emission

  /**
   * How a tokenizer places a token in the text, seen from the position after
   * the previous token: it starts at or after that position; a line end
   * follows it directly and is the separator found there; an indentation
   * token starts inside the text; any other token is the text found at its
   * place.
   */
  predicate InPlace(raw: string, lines: seq<int>, pos: int, tok: Token)
  {
    && tok.srow < |lines|
    && var newpos := NewPos(lines, tok);
    && 0 <= pos <= newpos
    && (IsLineEnd(tok.kind) ==> newpos == pos && tok.text == "\n" && newpos < |raw| && raw[newpos] == '\n')
    && (IsIndentation(tok.kind) ==> newpos <= |raw|)
    && (!IsLineEnd(tok.kind) && !IsIndentation(tok.kind) ==>
          newpos + |tok.text| <= |raw| && raw[newpos..newpos + |tok.text|] == tok.text)
  }

  /** Without colours, a token in place writes exactly the text from the previous position to its new one. */
  lemma StepFaithful(raw: string, lines: seq<int>, colors: CodeColors, pos: int, tok: Token)
    requires Accepts(lines, colors, tok) && Colorless(colors) && InPlace(raw, lines, pos, tok)
    ensures var st := TokenStep(raw, lines, colors, pos, tok);
      pos <= st.pos <= |raw| && Concat(st.written) == raw[pos..st.pos]
  {
    if IsLineEnd(tok.kind) {
      LineEndFaithful(raw, lines, colors, pos, tok);
    } else if IsIndentation(tok.kind) {
      GapFaithful(raw, pos, NewPos(lines, tok));
    } else {
      GapFaithful(raw, pos, NewPos(lines, tok));
      TextFaithful(raw, lines, colors, pos, tok);
    }
  }

  lemma LineEndFaithful(raw: string, lines: seq<int>, colors: CodeColors, pos: int, tok: Token)
    requires Accepts(lines, colors, tok) && InPlace(raw, lines, pos, tok) && IsLineEnd(tok.kind)
    ensures TokenStep(raw, lines, colors, pos, tok) == Step([LINESEP], pos + 1)
    ensures pos + 1 <= |raw| && Concat([LINESEP]) == raw[pos..pos + 1]
  {
    assert Concat([LINESEP]) == Concat([]) + LINESEP;
    assert raw[pos..pos + 1] == [raw[pos]];
  }

  /** The gap before a token is the text between the two positions. */
  lemma GapFaithful(raw: string, pos: int, newpos: int)
    requires 0 <= pos <= newpos <= |raw|
    ensures Concat(if newpos > pos then [PySlice(raw, pos, newpos)] else []) == raw[pos..newpos]
  {
    if newpos > pos {
      assert Concat([PySlice(raw, pos, newpos)]) == Concat([]) + PySlice(raw, pos, newpos);
    }
  }

  /** A token that is neither a line end nor an indentation writes the gap and its wrapped text. */
  lemma ColouredStep(raw: string, lines: seq<int>, colors: CodeColors, pos: int, tok: Token)
    requires Accepts(lines, colors, tok) && !IsLineEnd(tok.kind) && !IsIndentation(tok.kind)
    ensures TokenStep(raw, lines, colors, pos, tok)
         == Step((if NewPos(lines, tok) > pos then [PySlice(raw, pos, NewPos(lines, tok))] else [])
                   + [Wrapped(colors, TokenColor(colors, tok), tok.text)],
                 NewPos(lines, tok) + |tok.text|)
  {
  }

  lemma TextFaithful(raw: string, lines: seq<int>, colors: CodeColors, pos: int, tok: Token)
    requires Accepts(lines, colors, tok) && Colorless(colors) && InPlace(raw, lines, pos, tok)
    requires !IsLineEnd(tok.kind) && !IsIndentation(tok.kind)
    requires Concat(if NewPos(lines, tok) > pos then [PySlice(raw, pos, NewPos(lines, tok))] else []) == raw[pos..NewPos(lines, tok)]
    ensures var st := TokenStep(raw, lines, colors, pos, tok);
      pos <= st.pos <= |raw| && Concat(st.written) == raw[pos..st.pos]
  {
    ColorlessToken(colors, tok);
    ColouredStep(raw, lines, colors, pos, tok);
    GapThenText(raw, pos, NewPos(lines, tok), if NewPos(lines, tok) > pos then [PySlice(raw, pos, NewPos(lines, tok))] else [], tok.text);
  }

  /** The text from `pos` to `newpos`, then the text found at `newpos`, is the text from `pos` to its end. */
  lemma GapThenText(raw: string, pos: int, newpos: int, gap: seq<string>, text: string)
    requires 0 <= pos <= newpos && newpos + |text| <= |raw|
    requires Concat(gap) == raw[pos..newpos] && raw[newpos..newpos + |text|] == text
    ensures Concat(gap + [text]) == raw[pos..newpos + |text|]
  {
    ConcatSnoc(gap, text);
    JoinSlices(raw, pos, newpos, newpos + |text|);
  }

  /** Without colours a token's text is written as it is. */
  lemma ColorlessToken(colors: CodeColors, tok: Token)
    requires TEXT in colors.table && Colorless(colors)
    ensures Wrapped(colors, TokenColor(colors, tok), tok.text) == tok.text
  {
    TokenColorChoice(colors, tok);
    WrappedNoColor(colors, tok.text);
  }

  lemma JoinSlices(s: string, i: int, j: int, k: int)
    requires 0 <= i <= j <= k <= |s|
    ensures s[i..j] + s[j..k] == s[i..k]
  {
  }

  /** Each token of the run sits in place as seen from the position the tokens before it leave. */
  predicate Placed(raw: string, lines: seq<int>, colors: CodeColors, pos0: int, toks: seq<Token>)
    requires AllAccepted(lines, colors, toks)
  {
    toks == [] ||
      (Placed(raw, lines, colors, pos0, toks[..|toks| - 1])
       && InPlace(raw, lines, Run(raw, lines, colors, pos0, toks[..|toks| - 1]).pos, toks[|toks| - 1]))
  }

  /**
   * Without colours, a run of tokens each in place writes exactly the text
   * from the starting position to the position after the last token: the
   * highlighter changes nothing of the source's layout but the colours.
   */
  lemma {:induction false} RunFaithful(raw: string, lines: seq<int>, colors: CodeColors, pos0: int, toks: seq<Token>)
    requires AllAccepted(lines, colors, toks) && Colorless(colors) && 0 <= pos0 <= |raw|
    requires Placed(raw, lines, colors, pos0, toks)
    ensures var r := Run(raw, lines, colors, pos0, toks);
      pos0 <= r.pos <= |raw| && Concat(r.written) == raw[pos0..r.pos]
    decreases |toks|
  {
    if toks != [] {
      RunFaithful(raw, lines, colors, pos0, toks[..|toks| - 1]);
      StepFaithful(raw, lines, colors, Run(raw, lines, colors, pos0, toks[..|toks| - 1]).pos, toks[|toks| - 1]);
      RunSnoc(raw, lines, colors, pos0, toks);
      ConcatAppend(Run(raw, lines, colors, pos0, toks[..|toks| - 1]).written,
        TokenStep(raw, lines, colors, Run(raw, lines, colors, pos0, toks[..|toks| - 1]).pos, toks[|toks| - 1]).written);
      JoinSlices(raw, pos0, Run(raw, lines, colors, pos0, toks[..|toks| - 1]).pos,
        TokenStep(raw, lines, colors, Run(raw, lines, colors, pos0, toks[..|toks| - 1]).pos, toks[|toks| - 1]).pos);
    }
  }

  /** A run of at least one token: the run of all but the last, then the last token's step. */
  lemma RunSnoc(raw: string, lines: seq<int>, colors: CodeColors, pos0: int, toks: seq<Token>)
    requires AllAccepted(lines, colors, toks) && toks != []
    ensures Run(raw, lines, colors, pos0, toks)
         == Step(Run(raw, lines, colors, pos0, toks[..|toks| - 1]).written
                   + TokenStep(raw, lines, colors, Run(raw, lines, colors, pos0, toks[..|toks| - 1]).pos, toks[|toks| - 1]).written,
                 TokenStep(raw, lines, colors, Run(raw, lines, colors, pos0, toks[..|toks| - 1]).pos, toks[|toks| - 1]).pos)
  {
  }

  // ---------------------------------------------------------------------------
  // Preparing the text

  const TAB_SIZE := 8

  /** `s.expandtabs()` from column `col`: each tab up to the next multiple of eight, the column restarting after `\n` and `\r`. */
  function ExpandTabsFrom(s: string, col: nat): (r: string)
    ensures '\t' !in r
    decreases |s|
  {
    if s == [] then []
    else if s[0] == '\t' then
      var incr := TAB_SIZE - col % TAB_SIZE;
      Repeat(' ', incr) + ExpandTabsFrom(s[1..], col + incr)
    else [s[0]] + ExpandTabsFrom(s[1..], if s[0] == '\n' || s[0] == '\r' then 0 else col + 1)
  }

  /** A text without tabs is left as it is. */
  lemma {:induction false} ExpandTabsNoTabs(s: string, col: nat)
    requires '\t' !in s
    ensures ExpandTabsFrom(s, col) == s
    decreases |s|
  {
    if s != [] {
      assert '\t' !in s[1..];
      ExpandTabsNoTabs(s[1..], if s[0] == '\n' || s[0] == '\r' then 0 else col + 1);
      assert s == [s[0]] + s[1..];
    }
  }

  /** The text `format` works on: tabs expanded, surrounding whitespace stripped. */
  function Prepared(source: string): string
  {
    Strip(ExpandTabsFrom(source, 0))
  }

  /** The prepared text holds no tab and neither starts nor ends with whitespace. */
  lemma PreparedShape(source: string)
    ensures '\t' !in Prepared(source)
    ensures |Prepared(source)| > 0 ==> !IsSpace(Prepared(source)[0]) && !IsSpace(Prepared(source)[|Prepared(source)| - 1])
  {
    var expanded := ExpandTabsFrom(source, 0);
    var r := Strip(expanded);
    var lead := LeadingSpaces(expanded);
    assert r == expanded[lead..lead + |r|];
    forall k | 0 <= k < |r|
      ensures r[k] != '\t'
    {
      assert r[k] == expanded[lead + k];
    }
  }

  /** Without tabs the prepared text is the stripped source. */
  lemma PreparedNoTabs(source: string)
    requires '\t' !in source
    ensures Prepared(source) == Strip(source)
  {
    ExpandTabsNoTabs(source, 0);
  }

  // ---------------------------------------------------------------------------
  // The line offsets

  /** The position after each `\n` of `s` at or after `from`, in order. */
  function NewlineEnds(s: string, from: nat): seq<int>
    decreases |s| - from
  {
    if from >= |s| then []
    else if s[from] == '\n' then [from + 1] + NewlineEnds(s, from + 1)
    else NewlineEnds(s, from + 1)
  }

  /** The search of `format`'s loop finds the next entry: `find` either fails, leaving nothing, or finds the first one. */
  lemma {:induction false} NewlineEndsFind(s: string, from: nat)
    ensures var k := Find(s, '\n', from);
      NewlineEnds(s, from) == if k == -1 then [] else [k + 1] + NewlineEnds(s, k + 1)
    decreases |s| - from
  {
    if from < |s| && s[from] != '\n' {
      NewlineEndsFind(s, from + 1);
    }
  }

  /**
   * Each position lies after `from`, inside the text, right after a `\n`;
   * the positions increase strictly; and every `\n` there has its position
   * listed.
   */
  lemma NewlineEndsShape(s: string, from: nat)
    ensures forall j :: 0 <= j < |NewlineEnds(s, from)| ==>
      from < NewlineEnds(s, from)[j] <= |s| && s[NewlineEnds(s, from)[j] - 1] == '\n'
    ensures forall j :: 0 < j < |NewlineEnds(s, from)| ==> NewlineEnds(s, from)[j - 1] < NewlineEnds(s, from)[j]
    ensures forall k :: from <= k < |s| && s[k] == '\n' ==> k + 1 in NewlineEnds(s, from)
  {
    forall j | 0 <= j < |NewlineEnds(s, from)|
      ensures from < NewlineEnds(s, from)[j] <= |s| && s[NewlineEnds(s, from)[j] - 1] == '\n'
    {
      NewlineEndAt(s, from, j);
    }
    NewlineEndsIncrease(s, from);
    NewlineEndsComplete(s, from);
  }

  lemma {:induction false} NewlineEndAt(s: string, from: nat, j: nat)
    requires j < |NewlineEnds(s, from)|
    ensures from < NewlineEnds(s, from)[j] <= |s| && s[NewlineEnds(s, from)[j] - 1] == '\n'
    decreases |s| - from
  {
    if s[from] == '\n' {
      if j > 0 {
        ElementAfterHead(from + 1, NewlineEnds(s, from + 1), j);
        NewlineEndAt(s, from + 1, j - 1);
      }
    } else {
      NewlineEndAt(s, from + 1, j);
    }
  }

  /** The first position, if any, comes after `from`. */
  lemma NewlineEndsAbove(s: string, from: nat)
    requires |NewlineEnds(s, from)| > 0
    ensures from < NewlineEnds(s, from)[0]
  {
    NewlineEndAt(s, from, 0);
  }

  lemma {:induction false} NewlineEndsIncrease(s: string, from: nat)
    ensures forall j :: 0 < j < |NewlineEnds(s, from)| ==> NewlineEnds(s, from)[j - 1] < NewlineEnds(s, from)[j]
    decreases |s| - from
  {
    if from < |s| {
      NewlineEndsIncrease(s, from + 1);
      if s[from] == '\n' && |NewlineEnds(s, from + 1)| > 0 {
        NewlineEndsAbove(s, from + 1);
        ConsIncreasing(from + 1, NewlineEnds(s, from + 1));
      }
    }
  }

  /** A strictly increasing sequence stays so with a smaller element in front. */
  lemma ConsIncreasing(x: int, rest: seq<int>)
    requires |rest| > 0 && x < rest[0]
    requires forall j :: 0 < j < |rest| ==> rest[j - 1] < rest[j]
    ensures forall j :: 0 < j < |[x] + rest| ==> ([x] + rest)[j - 1] < ([x] + rest)[j]
  {
    forall j | 0 < j < |[x] + rest|
      ensures ([x] + rest)[j - 1] < ([x] + rest)[j]
    {
      if j > 1 {
        assert ([x] + rest)[j - 1] == rest[j - 2] && ([x] + rest)[j] == rest[j - 1];
      }
    }
  }

  lemma {:induction false} NewlineEndsComplete(s: string, from: nat)
    ensures forall k :: from <= k < |s| && s[k] == '\n' ==> k + 1 in NewlineEnds(s, from)
    decreases |s| - from
  {
    if from < |s| {
      NewlineEndsComplete(s, from + 1);
    }
  }

  /** `self.lines`: two zeros, the position after each `\n`, and the length of the text. */
  function LineOffsets(raw: string): seq<int>
  {
    [0, 0] + NewlineEnds(raw, 0) + [|raw|]
  }

  /** The offset table starts with two zeros, ends with the length of the text, and every entry lies inside the text. */
  lemma LineOffsetsBounds(raw: string)
    ensures var l := LineOffsets(raw);
      && |l| >= 3 && l[0] == 0 && l[1] == 0 && l[|l| - 1] == |raw|
      && (forall j :: 0 <= j < |l| ==> 0 <= l[j] <= |raw|)
  {
    var e := NewlineEnds(raw, 0);
    NewlineEndsShape(raw, 0);
    var l := LineOffsets(raw);
    forall j | 0 <= j < |l|
      ensures 0 <= l[j] <= |raw|
    {
      if 2 <= j < |l| - 1 {
        assert l[j] == e[j - 2];
      }
    }
  }

  /**
   * Between the two zeros and the length, the table lists the position after
   * each `\n` of the text and nothing else, so row `r` of the text starts at
   * entry `r`.
   */
  lemma LineOffsetsNewlines(raw: string)
    ensures var l := LineOffsets(raw);
      && (forall j :: 2 <= j < |l| - 1 ==> 0 < l[j] <= |raw| && raw[l[j] - 1] == '\n')
      && (forall k :: 0 <= k < |raw| && raw[k] == '\n' ==> k + 1 in l[2..|l| - 1])
  {
    var e := NewlineEnds(raw, 0);
    NewlineEndsShape(raw, 0);
    var l := LineOffsets(raw);
    assert l[2..|l| - 1] == e;
    forall j | 2 <= j < |l| - 1
      ensures 0 < l[j] <= |raw| && raw[l[j] - 1] == '\n'
    {
      assert l[j] == e[j - 2];
    }
  }

  /** The table never decreases. */
  lemma LineOffsetsSorted(raw: string)
    ensures var l := LineOffsets(raw);
      forall j :: 0 < j < |l| ==> l[j - 1] <= l[j]
  {
    var e := NewlineEnds(raw, 0);
    NewlineEndsShape(raw, 0);
    var l := LineOffsets(raw);
    forall j | 0 < j < |l|
      ensures l[j - 1] <= l[j]
    {
      if 2 < j < |l| - 1 {
        assert l[j - 1] == e[j - 3] && l[j] == e[j - 2];
      } else if j == |l| - 1 && |e| > 0 {
        assert l[j - 1] == e[|e| - 1];
      } else if j == 2 && |e| > 0 {
        assert l[j] == e[0];
      }
    }
  }

  // ---------------------------------------------------------------------------
  // The whole output

  /** `tokenize.TokenError`: its message and the row it names. */
  datatype TokenError = TokenError(msg: string, row: nat)

  /** The report of a tokenizer error: the message and the rest of the text from the row it names, in the error colour. */
  function ErrorReport(raw: string, lines: seq<int>, colors: CodeColors, err: TokenError): string
    requires err.row < |lines| && ERRORTOKEN in colors.table
  {
    colors.table[ERRORTOKEN] + "\n\n*** ERROR: " + err.msg + PySlice(raw, lines[err.row], |raw|) + colors.normal + "\n"
  }

  /** What the tokenizer's tokens and error need of a scheme and a prepared text. */
  predicate FormatAccepts(raw: string, colors: CodeColors, tokens: seq<Token>, error: Option<TokenError>)
  {
    && AllAccepted(LineOffsets(raw), colors, tokens)
    && (error.Some? ==> error.value.row < |LineOffsets(raw)| && ERRORTOKEN in colors.table)
  }

  /** Everything `format` writes for the prepared text `raw`: the tokens, the error report if any, and a last `normal` and newline. */
  function FormatWrites(raw: string, colors: CodeColors, tokens: seq<Token>, error: Option<TokenError>): (w: seq<string>)
    requires FormatAccepts(raw, colors, tokens, error)
  {
    var lines := LineOffsets(raw);
    Run(raw, lines, colors, 0, tokens).written
      + (if error.Some? then [ErrorReport(raw, lines, colors, error.value)] else [])
      + [colors.normal + "\n"]
  }

  /** The output always ends with `normal` and a newline, right after the tokens' output and the error report, if any. */
  lemma FormatEnds(raw: string, colors: CodeColors, tokens: seq<Token>, error: Option<TokenError>)
    requires FormatAccepts(raw, colors, tokens, error)
    ensures var w := FormatWrites(raw, colors, tokens, error); var run := Run(raw, LineOffsets(raw), colors, 0, tokens).written;
      && w[|w| - 1] == colors.normal + "\n"
      && w[..|run|] == run
      && |w| == |run| + (if error.Some? then 2 else 1)
      && (error.Some? ==> w[|w| - 2] == ErrorReport(raw, LineOffsets(raw), colors, error.value))
  {
  }

  /** An error report shows the text from the start of the row the error names to the end. */
  lemma ErrorReportShowsRow(raw: string, colors: CodeColors, err: TokenError)
    requires err.row < |LineOffsets(raw)| && ERRORTOKEN in colors.table
    ensures var start := LineOffsets(raw)[err.row];
      && 0 <= start <= |raw|
      && ErrorReport(raw, LineOffsets(raw), colors, err)
         == colors.table[ERRORTOKEN] + "\n\n*** ERROR: " + err.msg + raw[start..] + colors.normal + "\n"
  {
    LineOffsetsBounds(raw);
  }

  lemma AppendParts<T>(a: seq<T>, b: seq<T>, c: seq<T>, d: seq<T>)
    ensures a + b + c + d == a + (b + c + d)
  {
  }

  lemma LastSplit(w: seq<string>, init: seq<string>, last: string)
    requires |w| == |init| + 1 && w[..|init|] == init && w[|w| - 1] == last
    ensures w == init + [last]
  {
    assert w == w[..|init|] + [w[|w| - 1]];
  }

  /**
   * Without colours and without an error, tokens that each sit in place in
   * the prepared text make `format` write that text up to the end of the
   * last token, then a newline; when the tokens reach the end, the whole
   * prepared text.
   */
  lemma FormatFaithful(source: string, colors: CodeColors, tokens: seq<Token>)
    requires FormatAccepts(Prepared(source), colors, tokens, None) && Colorless(colors)
    requires Placed(Prepared(source), LineOffsets(Prepared(source)), colors, 0, tokens)
    ensures var raw := Prepared(source); var end := Run(raw, LineOffsets(raw), colors, 0, tokens).pos;
      && 0 <= end <= |raw|
      && Concat(FormatWrites(raw, colors, tokens, None)) == raw[..end] + "\n"
      && (end == |raw| ==> Concat(FormatWrites(raw, colors, tokens, None)) == raw + "\n")
  {
    var raw := Prepared(source);
    var lines := LineOffsets(raw);
    RunFaithful(raw, lines, colors, 0, tokens);
    var run := Run(raw, lines, colors, 0, tokens);
    var w := FormatWrites(raw, colors, tokens, None);
    FormatEnds(raw, colors, tokens, None);
    assert colors.normal + "\n" == "\n";
    LastSplit(w, run.written, "\n");
    ConcatAppend(run.written, ["\n"]);
    assert Concat(["\n"]) == Concat([]) + "\n";
  }

  // ---------------------------------------------------------------------------
  // The parser

  class Parser {
    /** The parser was built to return what it formats as a string (`out='str'`). */
    const toStr: bool
    /** The output stream, as the strings written to it. */
    var out: seq<string>
    var raw: string
    var lines: seq<int>
    var pos: int
    var colors: CodeColors

    constructor (toStr: bool)
      ensures this.toStr == toStr && out == []
    {
      this.toStr := toStr;
      out := [];
      raw := "";
      lines := [];
      pos := 0;
      colors := NO_COLOR;
    }

    /** `__call__`: the handler the tokenizer calls with each token. */
    method Eat(tok: Token)
      requires Accepts(lines, colors, tok)
      modifies this
      ensures raw == old(raw) && lines == old(lines) && colors == old(colors)
      ensures out == old(out) + TokenStep(raw, lines, colors, old(pos), tok).written
      ensures pos == TokenStep(raw, lines, colors, old(pos), tok).pos
    {
      var oldpos := pos;
      var newpos := lines[tok.srow] + tok.scol;
      pos := newpos + |tok.text|;
      if tok.kind == NEWLINE || tok.kind == NL {
        out := out + [LINESEP];
        return;
      }
      var gap: seq<string> := [];
      if newpos > oldpos {
        gap := [PySlice(raw, oldpos, newpos)];
      }
      out := out + gap;
      if tok.kind == INDENT || tok.kind == DEDENT {
        pos := newpos;
        return;
      }
      var group := tok.kind;
      if LPAR <= group && group <= OP {
        group := OP;
      } else if group == NAME && tok.text in KEYWORDS {
        group := KEYWORD;
      }
      var textColor := colors.table[TEXT];
      var color := if group in colors.table then colors.table[group] else textColor;
      var text := tok.text;
      if '\n' in text {
        text := ReplaceNewlines(text, colors.normal + LINESEP + color);
      }
      out := out + [color + text + colors.normal];
    }

    /**
     * `format`: prepares the text, builds the offset table, feeds every token
     * to the handler, reports a tokenizer error, and ends with `normal` and a
     * newline; in string mode all of it goes to a fresh buffer that is
     * returned, and the stream is left as it was.
     */
    method Format(source: string, scheme: CodeColors, tokens: seq<Token>, error: Option<TokenError>, strOut: bool)
      returns (output: Option<string>)
      requires FormatAccepts(Prepared(source), scheme, tokens, error)
      modifies this
      ensures raw == Prepared(source) && lines == LineOffsets(raw) && colors == scheme
      ensures pos == Run(raw, lines, colors, 0, tokens).pos
      ensures strOut || toStr ==> output == Some(Concat(FormatWrites(raw, colors, tokens, error))) && out == old(out)
      ensures !(strOut || toStr) ==> output == None && out == old(out) + FormatWrites(raw, colors, tokens, error)
    {
      raw := Prepared(source);
      var saved := out;
      var stringOutput := false;
      if strOut || toStr {
        out := [];
        stringOutput := true;
      }
      colors := scheme;
      lines := LineTable(raw);
      Emit(tokens, error);
      if stringOutput {
        AppendToNothing(FormatWrites(raw, colors, tokens, error));
        output := Some(Concat(out));
        out := saved;
      } else {
        output := None;
      }
    }

    /** Parsing and writing: the tokens from the start of the text, the error report if any, then `normal` and a newline. */
    method Emit(tokens: seq<Token>, error: Option<TokenError>)
      requires lines == LineOffsets(raw) && FormatAccepts(raw, colors, tokens, error)
      modifies this
      ensures raw == old(raw) && lines == old(lines) && colors == old(colors)
      ensures out == old(out) + FormatWrites(raw, colors, tokens, error)
      ensures pos == Run(raw, lines, colors, 0, tokens).pos
    {
      pos := 0;
      Feed(tokens);
      if error.Some? {
        out := out + [ErrorReport(raw, lines, colors, error.value)];
      }
      out := out + [colors.normal + "\n"];
      AppendParts(old(out), Run(raw, lines, colors, 0, tokens).written,
        if error.Some? then [ErrorReport(raw, lines, colors, error.value)] else [], [colors.normal + "\n"]);
    }

    /** The tokenizer's calls of the handler, one per token, from the start of the text. */
    method Feed(tokens: seq<Token>)
      requires AllAccepted(lines, colors, tokens) && pos == 0
      modifies this
      ensures raw == old(raw) && lines == old(lines) && colors == old(colors)
      ensures out == old(out) + Run(raw, lines, colors, 0, tokens).written
      ensures pos == Run(raw, lines, colors, 0, tokens).pos
    {
      for i := 0 to |tokens|
        invariant raw == old(raw) && lines == old(lines) && colors == old(colors)
        invariant out == old(out) + Run(raw, lines, colors, 0, tokens[..i]).written
        invariant pos == Run(raw, lines, colors, 0, tokens[..i]).pos
      {
        assert tokens[..i + 1][..i] == tokens[..i];
        Eat(tokens[i]);
      }
      assert tokens[..|tokens|] == tokens;
    }
  }

  /** The loop of `format` that collects the position after each `\n`, between two zeros and the length of the text. */
  method LineTable(raw: string) returns (lines: seq<int>)
    ensures lines == LineOffsets(raw)
  {
    lines := [0, 0];
    var p: nat := 0;
    while true
      invariant p <= |raw|
      invariant lines + NewlineEnds(raw, p) == [0, 0] + NewlineEnds(raw, 0)
      decreases |raw| - p
    {
      NewlineEndsFind(raw, p);
      var found := Find(raw, '\n', p) + 1;
      if found == 0 {
        break;
      }
      lines := lines + [found];
      p := found;
    }
    assert NewlineEnds(raw, p) == [];
    lines := lines + [|raw|];
  }
}
