/**
 * Tokens as Python 2's `tokenize` module hands them to its callback, and the
 * colour roles of an exception colour scheme.
 */
module Tokens {

  // Token type numbers of Python 2's `token` and `tokenize` modules.
  const ENDMARKER := 0
  const NAME := 1
  const NUMBER := 2
  const STRING := 3
  const NEWLINE := 4
  const INDENT := 5
  const DEDENT := 6
  const LPAR := 7
  const OP := 51
  const ERRORTOKEN := 52
  const COMMENT := 53
  const NL := 54
  const NT_OFFSET := 256

  /** One token: its type, its text, and its start and end (row, column); rows count from 1. */
  datatype Token = Token(kind: int, text: string, srow: nat, scol: nat, erow: nat, ecol: nat)
}

/**
 * The colour roles the traceback formatter and the debugger draw with. The
 * scheme table itself lives outside this model: a scheme is an opaque string
 * per role, and the "NoColor" scheme maps every role to the empty string.
 */
module ExceptionColors {

  datatype TBColors = TBColors(
    normal: string,       // Colors.Normal: back to the terminal's default
    normalEm: string,
    filename: string,
    filenameEm: string,
    lineno: string,
    linenoEm: string,
    line: string,
    name: string,
    nameEm: string,
    excName: string,
    caret: string,
    topline: string,
    em: string,
    vName: string,
    valEm: string,
    breakpointEnabled: string,
    breakpointDisabled: string)

  const NO_COLOR_NAME := "NoColor"

  /** The scheme in which every role is the empty string. */
  const NO_COLOR := TBColors("", "", "", "", "", "", "", "", "", "", "", "", "", "", "", "", "")
}
