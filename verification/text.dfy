/**
 * Python 2 string and list primitives that the traceback formatter, the
 * debugger and the colouriser are written in: whitespace tests, `strip`,
 * `rjust`, `'%*s'`, `str(int)`, `''.join`, `find`, list repetition and slices
 * with Python's clamping and negative-index rules.
 */
module Text {

  datatype Option<+T> = None | Some(value: T)

  function Max(a: int, b: int): int { if a >= b then a else b }

  function Min(a: int, b: int): int { if a <= b then a else b }

  /** `c.isspace()` for the characters Python 2 treats as whitespace in a `str`. */
  predicate IsSpace(c: char)
  {
    c == ' ' || c == '\t' || c == '\n' || c == '\r' || c == '\U{0B}' || c == '\U{0C}'
  }

  /** `[x] * n` and `c * n`: `n` copies of `x`; a count below one gives nothing. */
  function Repeat<T>(x: T, n: int): (r: seq<T>)
    ensures |r| == Max(n, 0)
    ensures forall i :: 0 <= i < |r| ==> r[i] == x
  {
    seq(Max(n, 0), _ => x)
  }

  // ---------------------------------------------------------------------------
  // Slices

  /** How Python normalises one bound of `s[i:j]` for a sequence of length `n`. */
  function SliceBound(i: int, n: nat): (b: nat)
    ensures b <= n
    ensures 0 <= i <= n ==> b == i
    ensures i > n ==> b == n
    ensures i < 0 ==> b == Max(i + n, 0)
  {
    if i < 0 then Max(i + n, 0) else if i > n then n else i
  }

  /** `s[i:j]` with Python semantics: negative bounds count from the end, bounds are clamped. */
  function PySlice<T>(s: seq<T>, i: int, j: int): seq<T>
  {
    var lo, hi := SliceBound(i, |s|), SliceBound(j, |s|);
    if lo <= hi then s[lo..hi] else []
  }

  /** A slice between two bounds that are not negative is the plain clamped sub-sequence. */
  lemma PySliceNatural<T>(s: seq<T>, i: int, j: int)
    requires 0 <= i <= j
    ensures PySlice(s, i, j) == s[Min(i, |s|)..Min(j, |s|)]
    ensures |PySlice(s, i, j)| == Max(Min(j, |s|) - i, 0)
  {
  }

  /** A slice never holds more than `j - i` elements when `i <= j`, whatever their signs. */
  lemma {:induction false} PySliceAtMost<T>(s: seq<T>, i: int, j: int)
    requires i <= j
    ensures |PySlice(s, i, j)| <= j - i
  {
    var n := |s|;
    var lo, hi := SliceBound(i, n), SliceBound(j, n);
    if lo <= hi {
      if i < 0 && j >= 0 {
        assert hi <= j;
        if i + n >= 0 {
          assert lo == i + n;
          assert hi <= n;
        } else {
          assert lo == 0;
        }
      }
    }
  }

  // ---------------------------------------------------------------------------
  // Joining

  /** `''.join(parts)`. */
  function Concat(parts: seq<string>): string
  {
    if parts == [] then "" else Concat(parts[..|parts| - 1]) + parts[|parts| - 1]
  }

  lemma {:induction false} ConcatAppend(parts: seq<string>, more: seq<string>)
    ensures Concat(parts + more) == Concat(parts) + Concat(more)
    decreases |more|
  {
    if more == [] {
      assert parts + more == parts;
      assert Concat(parts) + "" == Concat(parts);
    } else {
      assert (parts + more)[..|parts + more| - 1] == parts + more[..|more| - 1];
      ConcatAppend(parts, more[..|more| - 1]);
      assert Concat(parts) + Concat(more[..|more| - 1]) + more[|more| - 1]
          == Concat(parts) + (Concat(more[..|more| - 1]) + more[|more| - 1]);
    }
  }

  /** A join ends with its last part. */
  lemma ConcatEndsWith(parts: seq<string>, e: string)
    requires |parts| > 0 && parts[|parts| - 1] == e
    ensures |e| <= |Concat(parts)| && Concat(parts)[|Concat(parts)| - |e|..] == e
  {
    SuffixOfJoin(Concat(parts[..|parts| - 1]), e);
  }

  /** The second of two joined parts is a suffix of the join. */
  lemma SuffixOfJoin<T>(a: seq<T>, b: seq<T>)
    ensures |b| <= |a + b| && (a + b)[|a + b| - |b|..] == b
  {
  }

  lemma LastOfJoin<T>(a: seq<T>, b: seq<T>)
    requires |b| > 0
    ensures (a + b)[|a + b| - 1] == b[|b| - 1]
  {
  }

  /** Joining one more part appends it. */
  lemma ConcatSnoc(parts: seq<string>, last: string)
    ensures Concat(parts + [last]) == Concat(parts) + last
  {
    assert (parts + [last])[..|parts|] == parts;
  }

  /** The first and the last of three joined parts can be read back off the ends. */
  lemma PartsAtEnds<T>(a: seq<T>, b: seq<T>, c: seq<T>)
    ensures (a + b + c)[..|a|] == a
    ensures (a + b + c)[|a + b + c| - |c|..] == c
  {
  }

  /** Copies of one value hold no other value. */
  lemma NotInRepeat<T>(x: T, y: T, n: int)
    requires x != y
    ensures x !in Repeat(y, n)
  {
  }

  /** Empty parts drop out of a join: `a + e1 + b + e2 + c == a + b + c`. */
  lemma DropEmpty2(a: string, e1: string, b: string, e2: string, c: string, d: string, e: string)
    requires e1 == "" && e2 == ""
    ensures a + e1 + b + e2 + c + d + e == a + b + c + d + e
  {
    assert a + e1 == a && a + b + e2 == a + b;
  }

  /** Empty parts drop out of a join: `e1 + a + s + e2 + b + e3 == a + s + b`. */
  lemma DropEmpty3(e1: string, a: string, s: string, e2: string, b: string, e3: string)
    requires e1 == "" && e2 == "" && e3 == ""
    ensures e1 + a + s + e2 + b + e3 == a + s + b
    ensures e1 + a + s + e2 + b == a + s + b
  {
    assert e1 + a == a && a + s + e2 == a + s && a + s + b + e3 == a + s + b;
  }

  /** Empty parts drop out of a join: `p + e1 + a + e2 + b + e3 == p + a + b`. */
  lemma DropEmptyAround(p: string, e1: string, a: string, e2: string, b: string, e3: string)
    requires e1 == "" && e2 == "" && e3 == ""
    ensures p + e1 + a + e2 + b + e3 == p + a + b
  {
    assert p + e1 == p && p + a + e2 == p + a && p + a + b + e3 == p + a + b;
  }

  /** Moving the first element of `rest` onto the end of `done`. */
  lemma MoveFirst<T>(done: seq<T>, x: T, rest: seq<T>)
    ensures done + ([x] + rest) == (done + [x]) + rest
  {
  }

  lemma AppendNothing<T>(s: seq<T>)
    ensures s + [] == s
  {
  }

  lemma AppendToNothing<T>(s: seq<T>)
    ensures [] + s == s
  {
  }

  lemma EmptyBefore(e: string, s: string)
    requires e == ""
    ensures e + s == s
  {
  }

  lemma EmptyAround(e1: string, s: string, e2: string)
    requires e1 == "" && e2 == ""
    ensures e1 + s + e2 == s
  {
    assert e1 + s == s;
  }

  lemma ElementAfterHead<T>(x: T, rest: seq<T>, k: nat)
    requires 0 < k <= |rest|
    ensures ([x] + rest)[k] == rest[k - 1]
  {
  }

  /** Element `m == |p| + j` of `p + s` is element `j` of `s`. */
  lemma IndexAfterPrefix<T>(p: seq<T>, s: seq<T>, j: int, m: int)
    requires 0 <= j < |s| && m == |p| + j
    ensures (p + s)[m] == s[j]
  {
  }

  /** A prefix one element longer. */
  lemma TakeOneMore<T>(s: seq<T>, i: nat)
    requires i < |s|
    ensures s[..i + 1] == s[..i] + [s[i]]
  {
  }

  /** The first of two joined parts is a prefix of the join. */
  lemma PrefixOfJoin<T>(a: seq<T>, b: seq<T>)
    ensures a <= a + b
  {
    assert (a + b)[..|a|] == a;
  }

  /** `sep.join(parts)`. */
  function JoinWith(sep: string, parts: seq<string>): string
  {
    if |parts| == 0 then ""
    else if |parts| == 1 then parts[0]
    else JoinWith(sep, parts[..|parts| - 1]) + sep + parts[|parts| - 1]
  }

  // ---------------------------------------------------------------------------
  // Whitespace

  /** The number of whitespace characters `s` starts with. */
  function LeadingSpaces(s: string): (n: nat)
    ensures n <= |s|
    ensures forall k :: 0 <= k < n ==> IsSpace(s[k])
    ensures n < |s| ==> !IsSpace(s[n])
  {
    if |s| > 0 && IsSpace(s[0]) then 1 + LeadingSpaces(s[1..]) else 0
  }

  /** The number of whitespace characters `s` ends with. */
  function TrailingSpaces(s: string): (n: nat)
    ensures n <= |s|
    ensures forall k :: |s| - n <= k < |s| ==> IsSpace(s[k])
    ensures n < |s| ==> !IsSpace(s[|s| - n - 1])
  {
    if |s| > 0 && IsSpace(s[|s| - 1]) then 1 + TrailingSpaces(s[..|s| - 1]) else 0
  }

  /** `s.strip()`: `s` without its leading and trailing whitespace. */
  function Strip(s: string): (r: string)
    ensures LeadingSpaces(s) + |r| <= |s|
    ensures r == s[LeadingSpaces(s)..LeadingSpaces(s) + |r|]
    ensures forall k :: 0 <= k < LeadingSpaces(s) ==> IsSpace(s[k])
    ensures forall k :: LeadingSpaces(s) + |r| <= k < |s| ==> IsSpace(s[k])
    ensures |r| > 0 ==> !IsSpace(r[0]) && !IsSpace(r[|r| - 1])
  {
    var rest := s[LeadingSpaces(s)..];
    rest[..|rest| - TrailingSpaces(rest)]
  }

  // ---------------------------------------------------------------------------
  // Numbers and padding

  function DigitChar(d: nat): char
    requires d < 10
  {
    "0123456789"[d]
  }

  function NatToString(n: nat): (s: string)
    ensures |s| >= 1
    decreases n
  {
    if n < 10 then [DigitChar(n)] else NatToString(n / 10) + [DigitChar(n % 10)]
  }

  /** `str(n)` and `'%d' % n` for an integer. */
  function IntToString(n: int): (s: string)
    ensures |s| >= 1
  {
    if n < 0 then "-" + NatToString(-n) else NatToString(n)
  }

  /** `s.rjust(width)`: spaces on the left up to `width`; a longer `s` is left alone. */
  function RJust(s: string, width: int): (r: string)
    ensures |r| == Max(width, |s|)
  {
    Repeat(' ', width - |s|) + s
  }

  /** `rjust` puts the text at the right end, after nothing but spaces. */
  lemma RJustShape(s: string, width: int)
    ensures var r := RJust(s, width);
      && r[|r| - |s|..] == s
      && forall k :: 0 <= k < |r| - |s| ==> r[k] == ' '
  {
    var r := RJust(s, width);
    assert r == Repeat(' ', width - |s|) + s;
  }

  /** `s.ljust(width)`: spaces on the right up to `width`. */
  function LJust(s: string, width: int): (r: string)
    ensures |r| == Max(width, |s|)
    ensures r[..|s|] == s
  {
    s + Repeat(' ', width - |s|)
  }

  /** `'%*s' % (width, s)`: right-justified, or left-justified when the width is negative. */
  function PercentStar(width: int, s: string): (r: string)
    ensures |r| == Max(if width < 0 then -width else width, |s|)
    ensures width >= 0 ==> r == RJust(s, width)
  {
    if width >= 0 then RJust(s, width) else LJust(s, -width)
  }

  // ---------------------------------------------------------------------------
  // Searching

  /** `s.find(c, from)`: the first index at or after `from` holding `c`, or -1. */
  function Find(s: string, c: char, from: nat): (k: int)
    ensures k == -1 || (from <= k < |s| && s[k] == c)
    ensures forall i :: from <= i < |s| && (k == -1 || i < k) ==> s[i] != c
    decreases |s| - from
  {
    if from >= |s| then -1 else if s[from] == c then from else Find(s, c, from + 1)
  }
}

/**
 * The line-number gutter shared by the traceback formatter and the debugger:
 * seven columns holding an optional breakpoint number, an arrow on the
 * current line and the line number.
 */
module Gutter {
  import opened Text

  /** Width of the numbers column (`INDENT_SIZE - 1` in the formatter). */
  const NUMBERS_WIDTH := 7

  /** The arrow drawn in `pad` spare columns: `--...-> `, `> `, `>` or nothing. */
  function ArrowMarker(pad: int): (m: string)
    ensures |m| == Max(pad, 0)
  {
    if pad >= 3 then Repeat('-', pad - 3) + "-> "
    else if pad == 2 then "> "
    else if pad == 1 then ">"
    else ""
  }

  /** The marker is dashes, then `>` and a space, cut down from the left when there is no room. */
  lemma ArrowMarkerShape(pad: int)
    ensures var m := ArrowMarker(pad);
      && (pad >= 2 ==> m[|m| - 2..] == "> ")
      && (pad == 1 ==> m == ">")
      && (forall k :: 0 <= k < |m| - 2 ==> m[k] == '-')
  {
  }

  /** The arrow and line-number text of the current line when `prefixWidth` columns are taken. */
  function ArrowNumber(lineno: int, prefixWidth: int): (num: string)
  {
    var s := IntToString(lineno);
    ArrowMarker(NUMBERS_WIDTH - |s| - prefixWidth) + s
  }

  /** The right-justified line-number text of any other line. */
  function PlainNumber(lineno: int, prefixWidth: int): (num: string)
  {
    PercentStar(NUMBERS_WIDTH - prefixWidth, IntToString(lineno))
  }

  /**
   * Arrowed and plain numbers take the same width, so the code column lines up:
   * prefix plus number fill exactly seven columns whenever they fit, and the
   * arrowed text ends with the number itself.
   */
  lemma GutterWidths(lineno: int, prefixWidth: nat)
    requires prefixWidth <= NUMBERS_WIDTH
    ensures var s := IntToString(lineno);
      && |ArrowNumber(lineno, prefixWidth)| == Max(NUMBERS_WIDTH - prefixWidth, |s|)
      && |PlainNumber(lineno, prefixWidth)| == Max(NUMBERS_WIDTH - prefixWidth, |s|)
      && (prefixWidth + |s| <= NUMBERS_WIDTH ==>
            prefixWidth + |ArrowNumber(lineno, prefixWidth)| == NUMBERS_WIDTH)
      && ArrowNumber(lineno, prefixWidth)[|ArrowNumber(lineno, prefixWidth)| - |s|..] == s
  {
    var s := IntToString(lineno);
    var m := ArrowMarker(NUMBERS_WIDTH - |s| - prefixWidth);
    assert ArrowNumber(lineno, prefixWidth) == m + s;
    assert (m + s)[|m + s| - |s|..] == s;
  }

  /** No decimal numeral contains the arrow's `>`. */
  lemma {:induction false} NoArrowInNatString(n: nat)
    ensures '>' !in NatToString(n)
    decreases n
  {
    if n >= 10 {
      NoArrowInNatString(n / 10);
    }
  }

  lemma NoArrowInNumber(n: int)
    ensures '>' !in IntToString(n)
  {
    if n < 0 {
      NoArrowInNatString(-n);
    } else {
      NoArrowInNatString(n);
    }
  }

  /** The arrowed number after a mark: it fills the seven columns when they suffice, and has an arrow exactly when a column is spare. */
  lemma ArrowColumns(mark: string, lineno: int)
    requires '>' !in mark
    ensures var s := IntToString(lineno); var g := mark + ArrowNumber(lineno, |mark|);
      && g[..|mark|] == mark
      && |s| <= |g| && g[|g| - |s|..] == s
      && (|mark| + |s| <= NUMBERS_WIDTH ==> |g| == NUMBERS_WIDTH)
      && ('>' in g <==> |mark| + |s| < NUMBERS_WIDTH)
  {
    ArrowNumberParts(mark, lineno);
    NoArrowInNumber(lineno);
    ArrowMarkerArrow(NUMBERS_WIDTH - |IntToString(lineno)| - |mark|);
    PartsAtEnds(mark, ArrowMarker(NUMBERS_WIDTH - |IntToString(lineno)| - |mark|), IntToString(lineno));
  }

  lemma ArrowNumberParts(mark: string, lineno: int)
    ensures mark + ArrowNumber(lineno, |mark|) == mark + ArrowMarker(NUMBERS_WIDTH - |IntToString(lineno)| - |mark|) + IntToString(lineno)
  {
  }

  /** The marker holds an arrow exactly when it has at least one column. */
  lemma ArrowMarkerArrow(pad: int)
    ensures '>' in ArrowMarker(pad) <==> pad >= 1
  {
    if pad >= 3 {
      var dashes := Repeat('-', pad - 3);
      assert ArrowMarker(pad)[|dashes| + 1] == '>';
    }
  }

  /**
   * The plain number after a mark: right-justified in the columns the mark
   * leaves, so it ends the gutter, which is seven columns wide when both fit;
   * a mark wider than seven columns makes the width negative and `%*s`
   * left-justifies instead. No arrow either way.
   */
  lemma PlainColumns(mark: string, lineno: int)
    requires '>' !in mark
    ensures var s := IntToString(lineno); var g := mark + PlainNumber(lineno, |mark|);
      && g[..|mark|] == mark
      && |s| <= |g|
      && (|mark| <= NUMBERS_WIDTH ==> g[|g| - |s|..] == s)
      && (|mark| + |s| <= NUMBERS_WIDTH ==> |g| == NUMBERS_WIDTH)
      && '>' !in g
  {
    NoArrowInNumber(lineno);
    if |mark| <= NUMBERS_WIDTH {
      RightJustifiedParts(mark, lineno);
      PartsAtEnds(mark, Repeat(' ', NUMBERS_WIDTH - |mark| - |IntToString(lineno)|), IntToString(lineno));
      NotInRepeat('>', ' ', NUMBERS_WIDTH - |mark| - |IntToString(lineno)|);
    } else {
      LeftJustifiedParts(mark, lineno);
      PartsAtEnds(mark, IntToString(lineno), Repeat(' ', -(NUMBERS_WIDTH - |mark|) - |IntToString(lineno)|));
      NotInRepeat('>', ' ', -(NUMBERS_WIDTH - |mark|) - |IntToString(lineno)|);
    }
  }

  lemma RightJustifiedParts(mark: string, lineno: int)
    requires |mark| <= NUMBERS_WIDTH
    ensures mark + PlainNumber(lineno, |mark|)
         == mark + Repeat(' ', NUMBERS_WIDTH - |mark| - |IntToString(lineno)|) + IntToString(lineno)
  {
  }

  lemma LeftJustifiedParts(mark: string, lineno: int)
    requires |mark| > NUMBERS_WIDTH
    ensures mark + PlainNumber(lineno, |mark|)
         == mark + IntToString(lineno) + Repeat(' ', -(NUMBERS_WIDTH - |mark|) - |IntToString(lineno)|)
  {
  }
}
