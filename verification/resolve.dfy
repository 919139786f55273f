/**
 * The variable listing of the verbose traceback: every dotted name found on
 * the failing line is looked up either among the frame's locals or among its
 * globals, and shown as `name = value` (or `undefined`) below the line.
 */
module NameResolution {
  import opened Text
  import opened ExceptionColors

  /** Width of the indent before the variable listing (`INDENT_SIZE`). */
  const INDENT_SIZE := 8

  /**
   * A namespace as the formatter sees it: which base names it binds, and what
   * `repr(eval(name, namespace))` gives for a dotted name (`None` when the
   * evaluation or the `repr` raises).
   */
  datatype Scope = Scope(keys: set<string>, eval: string -> Option<string>)

  /**
   * What the verbose formatter asks of a frame: the code object's variable
   * names, the local and global namespaces, and the text
   * `inspect.formatargvalues` gives for the call, with or without values
   * (`None` when it raises KeyError).
   */
  datatype Frame = Frame(varNames: set<string>, locals: Scope, globals: Scope, formatArgs: bool -> Option<string>)

  /** `name.split('.', 1)[0]`: the part before the first dot. */
  function NameBase(name: string): (base: string)
    ensures |base| <= |name| && base == name[..|base|]
    ensures '.' !in base
    ensures |base| < |name| ==> name[|base|] == '.'
  {
    var k := Find(name, '.', 0);
    if k == -1 then name else name[..k]
  }

  /** Where a name is looked up: a name whose base is one of the code's variable names is local. */
  predicate IsLocal(frame: Frame, name: string)
  {
    NameBase(name) in frame.varNames
  }

  /** The `repr` of the name's value, or `None` when it shows as undefined. */
  function ValueOf(frame: Frame, name: string): Option<string>
  {
    var scope := if IsLocal(frame, name) then frame.locals else frame.globals;
    if NameBase(name) in scope.keys then scope.eval(name) else None
  }

  /** `tpl_local_var` or `tpl_global_var` applied to the name. */
  function NameText(c: TBColors, frame: Frame, name: string): string
  {
    if IsLocal(frame, name) then c.vName + name + c.normal
    else c.em + "global" + c.normal + " " + c.vName + name + c.normal
  }

  /** The value part: the `repr`, or the `undefined` marker. */
  function ValueText(c: TBColors, v: Option<string>): string
  {
    match v
    case Some(r) => r
    case None => c.em + "undefined" + c.normal
  }

  /** `tpl_name_val % (name, value)` for one name. */
  function Entry(c: TBColors, frame: Frame, name: string): string
  {
    NameText(c, frame, name) + " " + c.valEm + "= " + ValueText(c, ValueOf(frame, name)) + c.normal
  }

  /** The list `lvals` after the loop over the names. */
  function Entries(c: TBColors, frame: Frame, names: seq<string>): (r: seq<string>)
    ensures |r| == |names|
  {
    if names == [] then []
    else Entries(c, frame, names[..|names| - 1]) + [Entry(c, frame, names[|names| - 1])]
  }

  /** Entry `k` of the list is the entry of the `k`-th name. */
  lemma {:induction false} EntriesAt(c: TBColors, frame: Frame, names: seq<string>, k: int)
    requires 0 <= k < |names|
    ensures Entries(c, frame, names)[k] == Entry(c, frame, names[k])
    decreases |names|
  {
    if k < |names| - 1 {
      EntriesAt(c, frame, names[..|names| - 1], k);
      assert names[..|names| - 1][k] == names[k];
    }
  }

  /** `em_normal`: what separates two entries, a newline followed by the indent. */
  function Separator(c: TBColors): string
  {
    c.valEm + "\n" + Repeat(' ', INDENT_SIZE) + c.normal
  }

  /** The final `lvals` string: empty, or the indent followed by the joined entries. */
  function LocalsText(c: TBColors, frame: Frame, names: seq<string>, includeVars: bool): string
  {
    var vals := if includeVars then Entries(c, frame, names) else [];
    if vals == [] then "" else Repeat(' ', INDENT_SIZE) + JoinWith(Separator(c), vals)
  }

  /** The loop over the unique names, then the join. */
  method LineValues(c: TBColors, frame: Frame, names: seq<string>, includeVars: bool) returns (lvals: string)
    ensures lvals == LocalsText(c, frame, names, includeVars)
  {
    var vals: seq<string> := [];
    if includeVars {
      for i := 0 to |names|
        invariant vals == Entries(c, frame, names[..i])
      {
        var name := names[i];
        var value: string;
        var nameText: string;
        var base := NameBase(name);
        if base in frame.varNames {
          if base in frame.locals.keys {
            match frame.locals.eval(name) {
              case Some(r) => value := r;
              case None => value := c.em + "undefined" + c.normal;
            }
          } else {
            value := c.em + "undefined" + c.normal;
          }
          nameText := c.vName + name + c.normal;
        } else {
          if base in frame.globals.keys {
            match frame.globals.eval(name) {
              case Some(r) => value := r;
              case None => value := c.em + "undefined" + c.normal;
            }
          } else {
            value := c.em + "undefined" + c.normal;
          }
          nameText := c.em + "global" + c.normal + " " + c.vName + name + c.normal;
        }
        assert names[..i + 1][..i] == names[..i];
        vals := vals + [nameText + " " + c.valEm + "= " + value + c.normal];
      }
      assert names[..|names|] == names;
    }
    if vals != [] {
      lvals := Repeat(' ', INDENT_SIZE) + JoinWith(Separator(c), vals);
    } else {
      lvals := "";
    }
  }

  // ---------------------------------------------------------------------------
  // Properties

  /** A local name is resolved in the locals alone: the globals cannot change what it shows. */
  lemma LocalIgnoresGlobals(frame: Frame, globals: Scope, name: string)
    requires IsLocal(frame, name)
    ensures ValueOf(frame.(globals := globals), name) == ValueOf(frame, name)
    ensures NameText(NO_COLOR, frame, name) == name
  {
    NameTextNoColor(frame, name);
    EmptyBefore("", name);
  }

  /** A global name is resolved in the globals alone, and is labelled as global. */
  lemma GlobalIgnoresLocals(frame: Frame, locals: Scope, name: string)
    requires !IsLocal(frame, name)
    ensures ValueOf(frame.(locals := locals), name) == ValueOf(frame, name)
    ensures NameText(NO_COLOR, frame, name) == "global " + name
  {
    NameTextNoColor(frame, name);
  }

  /** A name whose base the chosen namespace does not bind shows as `undefined`, whatever its evaluation would give. */
  lemma UnboundIsUndefined(frame: Frame, name: string)
    requires NameBase(name) !in (if IsLocal(frame, name) then frame.locals else frame.globals).keys
    ensures ValueText(NO_COLOR, ValueOf(frame, name)) == "undefined"
  {
    ValueTextNoColor(ValueOf(frame, name));
  }

  /**
   * Without colours each entry reads `name = value`, with `global ` before a
   * global name and `undefined` for a value that could not be found.
   */
  lemma EntryNoColor(frame: Frame, name: string)
    ensures Entry(NO_COLOR, frame, name)
         == (if IsLocal(frame, name) then "" else "global ") + name + " = "
            + (match ValueOf(frame, name) case Some(r) => r case None => "undefined")
  {
    NameTextNoColor(frame, name);
    ValueTextNoColor(ValueOf(frame, name));
    EntryParts(NameText(NO_COLOR, frame, name), " ", NO_COLOR.valEm, "= ", ValueText(NO_COLOR, ValueOf(frame, name)), NO_COLOR.normal);
  }

  lemma NameTextNoColor(frame: Frame, name: string)
    ensures NameText(NO_COLOR, frame, name) == (if IsLocal(frame, name) then "" else "global ") + name
  {
    if IsLocal(frame, name) {
      EmptyAround(NO_COLOR.vName, name, NO_COLOR.normal);
      EmptyBefore("", name);
    } else {
      GlobalLabel(NO_COLOR.em, "global", NO_COLOR.normal, " ", NO_COLOR.vName, name, NO_COLOR.normal);
    }
  }

  lemma ValueTextNoColor(v: Option<string>)
    ensures ValueText(NO_COLOR, v) == match v case Some(r) => r case None => "undefined"
  {
    if v.None? {
      EmptyAround(NO_COLOR.em, "undefined", NO_COLOR.normal);
    }
  }

  /** The global template with its colour fields empty. */
  lemma GlobalLabel(e1: string, g: string, e2: string, sp: string, e3: string, n: string, e4: string)
    requires e1 == "" && e2 == "" && e3 == "" && e4 == "" && g == "global" && sp == " "
    ensures e1 + g + e2 + sp + e3 + n + e4 == "global " + n
  {
    assert e1 + g == g;
    assert g + e2 == g;
    assert g + sp == "global ";
    assert "global " + e3 == "global ";
    assert "global " + n + e4 == "global " + n;
  }

  /** `tpl_name_val` with its colour fields empty. */
  lemma EntryParts(nt: string, sp: string, e1: string, eq: string, v: string, e2: string)
    requires e1 == "" && e2 == "" && sp == " " && eq == "= "
    ensures nt + sp + e1 + eq + v + e2 == nt + " = " + v
  {
    assert nt + sp + e1 == nt + sp;
    assert sp + eq == " = ";
    assert (nt + sp) + eq == nt + (sp + eq);
    assert nt + " = " + v + e2 == nt + " = " + v;
  }

  /** The listing is empty exactly when variables are not shown or the line has no names. */
  lemma LocalsTextEmpty(c: TBColors, frame: Frame, names: seq<string>, includeVars: bool)
    ensures LocalsText(c, frame, names, includeVars) == "" <==> !includeVars || names == []
  {
    if includeVars && names != [] {
      assert |LocalsText(c, frame, names, includeVars)| >= INDENT_SIZE;
    }
  }
}
