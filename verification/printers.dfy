/**
 * The state the traceback printers keep between calls: the active colour
 * scheme and the one to toggle back to, the mode with its `include_vars`
 * flag, the frame offset, and the last syntax error.
 */
module Printers {
  import opened Text
  import opened ExceptionColors
  import opened ListTraceback
  import opened Reports

  // ---------------------------------------------------------------------------
  // TBTools.color_toggle

  /** The scheme names the toggle moves between. */
  datatype ColorState = ColorState(active: string, remembered: string)

  /**
   * One toggle: from NoColor back to the remembered scheme, from any other
   * scheme to NoColor, remembering it. `None` when the remembered scheme is
   * not in the table (selecting it raises).
   */
  function Toggle(schemes: map<string, TBColors>, s: ColorState): Option<ColorState>
  {
    if s.active == NO_COLOR_NAME then
      if s.remembered in schemes then Some(ColorState(s.remembered, s.remembered)) else None
    else Some(ColorState(NO_COLOR_NAME, s.active))
  }

  /** Toggling twice from a coloured scheme comes back to that scheme. */
  lemma ToggleTwiceRestores(schemes: map<string, TBColors>, s: ColorState)
    requires s.active != NO_COLOR_NAME && s.active in schemes
    ensures Toggle(schemes, s).Some?
    ensures Toggle(schemes, s).value.active == NO_COLOR_NAME
    ensures Toggle(schemes, Toggle(schemes, s).value) == Some(ColorState(s.active, s.active))
  {
  }

  /** From NoColor the toggle fails exactly when the remembered scheme is unknown. */
  lemma ToggleFromNoColor(schemes: map<string, TBColors>, s: ColorState)
    requires s.active == NO_COLOR_NAME
    ensures Toggle(schemes, s).Some? <==> s.remembered in schemes
    ensures Toggle(schemes, s).Some? ==> Toggle(schemes, s).value.active == s.remembered
  {
  }

  /**
   * `ExceptionColors`, the colour scheme table that every traceback printer
   * shares: the schemes by name and the name of the active one.
   */
  class SchemeTable {
    const schemes: map<string, TBColors>
    var activeName: string

    ghost predicate Valid()
      reads this
    {
      NO_COLOR_NAME in schemes && activeName in schemes
    }

    /** A table of `schemes` with `defaultScheme` active. */
    constructor (schemes: map<string, TBColors>, defaultScheme: string)
      requires NO_COLOR_NAME in schemes && defaultScheme in schemes
      ensures Valid() && this.schemes == schemes && activeName == defaultScheme
    {
      this.schemes := schemes;
      activeName := defaultScheme;
    }

    /** `set_active_scheme`: `ok` is false, and the active scheme stays, when the name is not in the table. */
    method SetActiveScheme(name: string) returns (ok: bool)
      requires Valid()
      modifies this
      ensures Valid() && ok == (name in schemes)
      ensures activeName == if ok then name else old(activeName)
    {
      if name !in schemes {
        return false;
      }
      activeName := name;
      ok := true;
    }
  }

  /**
   * The colour state of every formatter: the shared scheme table, the colours
   * this printer took from it when it last selected a scheme, and the scheme
   * to toggle back to.
   */
  class TBTools {
    const table: SchemeTable
    var oldScheme: string
    var colors: TBColors

    /**
     * `TBTools.__init__`: selects NoColor in the shared table when the output
     * is not a terminal, the requested scheme otherwise; the requested name is
     * remembered either way.
     */
    constructor (table: SchemeTable, colorScheme: string, isatty: bool)
      requires table.Valid() && (isatty ==> colorScheme in table.schemes)
      modifies table
      ensures this.table == table && table.Valid() && oldScheme == colorScheme
      ensures table.activeName == if isatty then colorScheme else NO_COLOR_NAME
      ensures colors == table.schemes[table.activeName]
    {
      this.table := table;
      colors := table.schemes[NO_COLOR_NAME];
      oldScheme := colorScheme;
      new;
      var ok := SetColors(if isatty then colorScheme else NO_COLOR_NAME);
    }

    /**
     * `set_colors`: select the scheme in the shared table and take its colours;
     * `ok` is false, and nothing changes, when the name is not in the table.
     */
    method SetColors(name: string) returns (ok: bool)
      requires table.Valid()
      modifies this, table
      ensures table.Valid() && ok == (name in table.schemes)
      ensures table.activeName == (if ok then name else old(table.activeName))
      ensures colors == (if ok then table.schemes[name] else old(colors))
      ensures oldScheme == old(oldScheme)
    {
      ok := table.SetActiveScheme(name);
      if ok {
        colors := table.schemes[name];
      }
    }

    /**
     * `color_toggle`, which reads the active scheme from the shared table, so
     * another printer's choice since this one last selected counts. `ok` is
     * false when selecting the remembered scheme raises, and nothing changes
     * then.
     */
    method ColorToggle() returns (ok: bool)
      requires table.Valid()
      modifies this, table
      ensures table.Valid()
      ensures var t := Toggle(table.schemes, ColorState(old(table.activeName), old(oldScheme)));
        && ok == t.Some?
        && (ok ==> table.activeName == t.value.active && oldScheme == t.value.remembered && colors == table.schemes[table.activeName])
        && (!ok ==> table.activeName == old(table.activeName) && oldScheme == old(oldScheme) && colors == old(colors))
    {
      if table.activeName == NO_COLOR_NAME {
        ok := table.SetActiveScheme(oldScheme);
        if !ok {
          return;
        }
      } else {
        oldScheme := table.activeName;
        ok := table.SetActiveScheme(NO_COLOR_NAME);
      }
      colors := table.schemes[table.activeName];
    }
  }

  // ---------------------------------------------------------------------------
  // FormattedTB.set_mode

  /** The modes, in the order the cycle visits them. */
  const VALID_MODES := ["Plain", "Context", "Verbose"]

  function ModeIndex(mode: string): (k: int)
    ensures -1 <= k < |VALID_MODES|
    ensures k >= 0 ==> VALID_MODES[k] == mode
    ensures k == -1 <==> mode !in VALID_MODES
  {
    if mode == "Plain" then 0 else if mode == "Context" then 1 else if mode == "Verbose" then 2 else -1
  }

  /** The mode and `include_vars` after a successful `set_mode`. */
  datatype ModeState = ModeState(mode: string, includeVars: bool)

  /**
   * `set_mode(mode)`: the empty name moves to the next mode of the cycle, a
   * valid name selects that mode, anything else is a ValueError (`None`).
   * Cycling from a mode that is not valid fails too, in `list.index`.
   */
  function SetModeResult(current: string, mode: string): Option<ModeState>
  {
    if mode == "" then
      var k := ModeIndex(current);
      if k == -1 then None
      else
        var next := VALID_MODES[(k + 1) % |VALID_MODES|];
        Some(ModeState(next, next == VALID_MODES[2]))
    else if mode !in VALID_MODES then None
    else Some(ModeState(mode, mode == VALID_MODES[2]))
  }

  /** Cycling goes Plain, Context, Verbose and back, and three steps return to the start. */
  lemma ModeCycle(current: string)
    requires current in VALID_MODES
    ensures var s1 := SetModeResult(current, "");
      && s1.Some? && s1.value.mode in VALID_MODES
      && ModeIndex(s1.value.mode) == (ModeIndex(current) + 1) % 3
      && var s2 := SetModeResult(s1.value.mode, "");
      && s2.Some?
      && var s3 := SetModeResult(s2.value.mode, "");
      && s3.Some? && s3.value.mode == current
  {
    CycleSteps();
  }

  /** The three steps of the cycle, one by one. */
  lemma CycleSteps()
    ensures SetModeResult("Plain", "") == Some(ModeState("Context", false))
    ensures SetModeResult("Context", "") == Some(ModeState("Verbose", true))
    ensures SetModeResult("Verbose", "") == Some(ModeState("Plain", false))
    ensures ModeIndex("Plain") == 0 && ModeIndex("Context") == 1 && ModeIndex("Verbose") == 2
  {
    assert "Plain" != "Context" && "Plain" != "Verbose" && "Context" != "Verbose" by {
      assert "Context"[0] != "Verbose"[0];
    }
  }

  /** Whatever the request, a successful call leaves a valid mode, with variables shown exactly in Verbose. */
  lemma SetModeKeepsValid(current: string, mode: string)
    ensures var r := SetModeResult(current, mode);
      r.Some? ==> r.value.mode in VALID_MODES && (r.value.includeVars <==> r.value.mode == "Verbose")
    ensures mode != "" ==> (SetModeResult(current, mode).Some? <==> mode in VALID_MODES)
  {
  }

  // ---------------------------------------------------------------------------
  // SyntaxTB

  /**
   * What `_extract_tb` gives for an entry list handed to it in place of a
   * traceback: an empty list is false and gives no traceback, and
   * `extract_tb` raises on any other list.
   */
  function ExtractFromList(elist: seq<TbEntry>): Option<seq<TbEntry>>
  {
    if elist == [] then Some([]) else None
  }

  /** A printer for syntax errors that remembers the last one it printed. */
  class SyntaxTB {
    const tools: TBTools
    var mode: string
    var lastSyntaxError: Option<ExcValue>
    /** What has been printed: each report followed by the newline `print` adds. */
    var out: seq<string>

    /** `SyntaxTB.__init__`: the mode is stored as given; there is no error yet. */
    constructor (tools: TBTools, mode: string)
      ensures this.tools == tools && this.mode == mode && lastSyntaxError.None? && out == []
    {
      this.tools := tools;
      this.mode := mode;
      lastSyntaxError := None;
      out := [];
    }

    /**
     * `__call__`: remember the value, then print the report. `ListTB.__call__`
     * hands `elist` to `text` as its traceback, so a non-empty list fails
     * wherever the report goes through `_extract_tb`. When the report raises,
     * the value has been remembered and nothing is printed.
     */
    method Call(env: Env, etype: ExcType, value: ExcValue, elist: seq<TbEntry>) returns (ok: bool)
      modifies this
      ensures lastSyntaxError == Some(value) && mode == old(mode)
      ensures var t := SyntaxText(tools.colors, env, mode, etype, value, ExtractFromList(elist));
        && ok == t.Some?
        && out == old(out) + (if ok then [t.value + "\n"] else [])
      ensures elist != [] && (mode !in VERBOSE_MODES || (value.Value? && value.attrs.Some? && value.attrs.value.lineno.None?)) ==> !ok
    {
      lastSyntaxError := Some(value);
      var t := SyntaxText(tools.colors, env, mode, etype, value, ExtractFromList(elist));
      if t.None? {
        return false;
      }
      out := out + [t.value + "\n"];
      ok := true;
    }

    /** `clear_err_state`: hand back the last error and forget it. */
    method ClearErrState() returns (e: Option<ExcValue>)
      modifies this
      ensures e == old(lastSyntaxError) && lastSyntaxError.None?
      ensures mode == old(mode) && out == old(out)
    {
      e := lastSyntaxError;
      lastSyntaxError := None;
    }
  }

  // ---------------------------------------------------------------------------
  // AutoFormattedTB

  /** The report of the handler chosen by the exception type: the syntax-error report for `SyntaxError` itself, the formatted one otherwise. */
  function Report(c: TBColors, env: Env, mode: string, includeVars: bool, tbOffset: int, etype: ExcType, evalue: ExcValue, tb: Traceback): (r: Option<string>)
    requires WellFormed(tb)
    ensures IsSyntaxError(etype) ==> r == SyntaxText(c, env, mode, etype, evalue, Some(tb.entries))
    ensures !IsSyntaxError(etype) ==> r == FormattedText(c, env, mode, includeVars, tbOffset, etype, evalue, tb)
    ensures etype.StringExc? ==> (r.Some? <==> mode in VERBOSE_MODES && |tb.entries| >= 2)
  {
    if IsSyntaxError(etype) then SyntaxText(c, env, mode, etype, evalue, Some(tb.entries))
    else FormattedText(c, env, mode, includeVars, tbOffset, etype, evalue, tb)
  }

  /**
   * The printer that picks the syntax-error report or the formatted report by
   * the exception type. Its `SyntaxTB` part holds the mode, the last syntax
   * error and the output shared with its `FormattedTB` part.
   */
  class AutoFormattedTB {
    const base: SyntaxTB
    var includeVars: bool
    var tbOffset: int

    /** `AutoFormattedTB.__init__`: the mode passes through `set_mode`, which fixes `include_vars`. */
    constructor (tools: TBTools, mode: string, tbOffset: int)
      requires mode in VALID_MODES
      ensures base.tools == tools && base.mode == mode && base.lastSyntaxError.None? && base.out == []
      ensures this.tbOffset == tbOffset && includeVars == (mode == "Verbose")
      ensures fresh(base)
    {
      base := new SyntaxTB(tools, mode);
      this.tbOffset := tbOffset;
      includeVars := mode == "Verbose";
    }

    /** `set_mode`; `ok` is false for the ValueError, and then neither the mode nor `include_vars` changes. */
    method SetMode(mode: string) returns (ok: bool)
      modifies this, base
      ensures var r := SetModeResult(old(base.mode), mode);
        && ok == r.Some?
        && (ok ==> base.mode == r.value.mode && includeVars == r.value.includeVars)
        && (!ok ==> base.mode == old(base.mode) && includeVars == old(includeVars))
      ensures tbOffset == old(tbOffset) && base.out == old(base.out) && base.lastSyntaxError == old(base.lastSyntaxError)
    {
      if mode == "" {
        var k := ModeIndex(base.mode);
        if k == -1 {
          return false;
        }
        base.mode := VALID_MODES[(k + 1) % |VALID_MODES|];
      } else if mode !in VALID_MODES {
        return false;
      } else {
        base.mode := mode;
      }
      includeVars := base.mode == VALID_MODES[2];
      ok := true;
    }

    /**
     * `__call__`: print the report, with `tbOffsetArg` in place of the
     * offset for this one call. The offset is put back only after the report
     * was printed: when the report raises, the override stays in place.
     */
    method Call(env: Env, etype: ExcType, evalue: ExcValue, tb: Traceback, tbOffsetArg: Option<int>) returns (ok: bool)
      requires WellFormed(tb)
      modifies this, base
      ensures var offset := if tbOffsetArg.Some? then tbOffsetArg.value else old(tbOffset);
        var t := Report(base.tools.colors, env, base.mode, includeVars, offset, etype, evalue, tb);
        && ok == t.Some?
        && base.out == old(base.out) + (if ok then [t.value + "\n"] else [])
      ensures base.mode == old(base.mode) && includeVars == old(includeVars) && base.lastSyntaxError == old(base.lastSyntaxError)
      ensures ok ==> tbOffset == old(tbOffset)
      ensures !ok ==> tbOffset == (if tbOffsetArg.Some? then tbOffsetArg.value else old(tbOffset))
      ensures IsSyntaxError(etype) ==>
        var t := SyntaxText(base.tools.colors, env, base.mode, etype, evalue, Some(tb.entries));
        && ok == t.Some?
        && base.out == old(base.out) + (if ok then [t.value + "\n"] else [])
    {
      if tbOffsetArg.Some? {
        var saved := tbOffset;
        tbOffset := tbOffsetArg.value;
        var t := Report(base.tools.colors, env, base.mode, includeVars, tbOffset, etype, evalue, tb);
        if t.None? {
          return false;
        }
        base.out := base.out + [t.value + "\n"];
        tbOffset := saved;
      } else {
        var t := Report(base.tools.colors, env, base.mode, includeVars, tbOffset, etype, evalue, tb);
        if t.None? {
          return false;
        }
        base.out := base.out + [t.value + "\n"];
      }
      ok := true;
    }
  }
}
