/**
 * The dotted-name extractor of the verbose traceback: a stateful token
 * callback that builds names such as `a.b.c` from the tokens of the failing
 * line, stopping at the end of the logical line, followed by `uniq_stable`.
 */
module NameExtractor {
  import opened Text
  import opened Tokens
  import UniqStable

  /** The callback's state after one token: its name list, its continuation flag, and whether it stopped the tokenizer. */
  datatype EatResult = EatResult(names: seq<string>, nameCont: bool, stop: bool)

  function Last(s: seq<string>): string
    requires |s| > 0
  {
    s[|s| - 1]
  }

  /** One call of the callback on `tok`, from the name list `names` and flag `cont`. */
  function EatToken(names: seq<string>, cont: bool, tok: Token, keywords: set<string>): EatResult
  {
    if tok.text == "." && |names| > 0 then
      // `names[-1] += '.'`, and the next name continues this one
      EatResult(names[..|names| - 1] + [Last(names) + "."], true, false)
    else if tok.kind == NAME && tok.text !in keywords then
      if cont then
        if |names| == 0 then EatResult(names, cont, true)  // `names[-1]` raises IndexError, which ends the scan
        else EatResult(names[..|names| - 1] + [Last(names) + tok.text], false, false)
      else EatResult(names + [tok.text], cont, false)
    else if tok.kind == NEWLINE then
      EatResult(names, cont, true)
    else
      EatResult(names, cont, false)
  }

  /** Feed `tokens` to the callback until it stops the tokenizer or the tokens run out. */
  function Scan(names: seq<string>, cont: bool, tokens: seq<Token>, keywords: set<string>): seq<string>
    decreases |tokens|
  {
    if tokens == [] then names
    else
      var r := EatToken(names, cont, tokens[0], keywords);
      if r.stop then r.names else Scan(r.names, r.nameCont, tokens[1..], keywords)
  }

  /** The name list before pruning, as the callback leaves it. */
  function DottedNames(tokens: seq<Token>, keywords: set<string>): seq<string>
  {
    Scan([], false, tokens, keywords)
  }

  /** The names the verbose formatter resolves for one frame. */
  function LineNames(tokens: seq<Token>, keywords: set<string>): seq<string>
  {
    UniqStable.Uniq(DottedNames(tokens, keywords))
  }

  /** The callback with the two pieces of state it updates in place. */
  class NameCollector {
    var names: seq<string>
    var nameCont: bool

    constructor ()
      ensures names == [] && !nameCont
    {
      names := [];
      nameCont := false;
    }

    /** One token; `stop` stands for the IndexError that ends tokenizing. */
    method Eat(tok: Token, keywords: set<string>) returns (stop: bool)
      modifies this
      ensures var r := EatToken(old(names), old(nameCont), tok, keywords);
        names == r.names && nameCont == r.nameCont && stop == r.stop
    {
      stop := false;
      if tok.text == "." && |names| > 0 {
        names := names[..|names| - 1] + [names[|names| - 1] + "."];
        nameCont := true;
        return;
      }
      if tok.kind == NAME && tok.text !in keywords {
        if nameCont {
          if |names| == 0 {
            stop := true;
            return;
          }
          names := names[..|names| - 1] + [names[|names| - 1] + tok.text];
          nameCont := false;
        } else {
          names := names + [tok.text];
        }
      } else if tok.kind == NEWLINE {
        stop := true;
      }
    }
  }

  /** Tokenize the failing line into the collector, then prune duplicates keeping the order. */
  method ExtractNames(tokens: seq<Token>, keywords: set<string>) returns (unique: seq<string>)
    ensures unique == LineNames(tokens, keywords)
  {
    var eater := new NameCollector();
    var i := 0;
    var stopped := false;
    while i < |tokens| && !stopped
      invariant 0 <= i <= |tokens|
      invariant !stopped ==> Scan(eater.names, eater.nameCont, tokens[i..], keywords) == DottedNames(tokens, keywords)
      invariant stopped ==> eater.names == DottedNames(tokens, keywords)
    {
      stopped := eater.Eat(tokens[i], keywords);
      assert tokens[i..][1..] == tokens[i + 1..];
      i := i + 1;
    }
    unique := UniqStable.UniqStable(eater.names);
  }

  // ---------------------------------------------------------------------------
  // Properties

  /**
   * The token texts that end up in the names: every non-keyword NAME, and
   * every `.` once some name exists, up to the first NEWLINE.
   */
  function Kept(tokens: seq<Token>, seen: bool, keywords: set<string>): seq<string>
    decreases |tokens|
  {
    if tokens == [] then []
    else
      var t := tokens[0];
      if t.text == "." && seen then [t.text] + Kept(tokens[1..], seen, keywords)
      else if t.kind == NAME && t.text !in keywords then [t.text] + Kept(tokens[1..], true, keywords)
      else if t.kind == NEWLINE then []
      else Kept(tokens[1..], seen, keywords)
  }

  lemma ConcatPrepend(x: string, rest: seq<string>)
    ensures Concat([x] + rest) == x + Concat(rest)
  {
    ConcatAppend([x], rest);
    assert [x][..0] == [];
  }

  lemma ConcatReplaceLast(names: seq<string>, suffix: string)
    requires |names| > 0
    ensures Concat(names[..|names| - 1] + [Last(names) + suffix]) == Concat(names) + suffix
  {
    var init, x := names[..|names| - 1], names[|names| - 1];
    var changed := init + [x + suffix];
    assert changed[..|changed| - 1] == init;
    assert changed[|changed| - 1] == x + suffix;
    calc {
      Concat(changed);
      Concat(init) + (x + suffix);
      (Concat(init) + x) + suffix;
      Concat(names) + suffix;
    }
  }

  /**
   * Nothing is lost and nothing invented: read end to end, the names hold
   * exactly the kept token texts, in token order.
   */
  lemma {:induction false} ScanKeepsText(names: seq<string>, cont: bool, tokens: seq<Token>, keywords: set<string>)
    requires cont ==> |names| > 0
    ensures Concat(Scan(names, cont, tokens, keywords)) == Concat(names) + Concat(Kept(tokens, |names| > 0, keywords))
    decreases |tokens|
  {
    if tokens != [] {
      var t := tokens[0];
      var r := EatToken(names, cont, t, keywords);
      var rest := Kept(tokens[1..], |r.names| > 0, keywords);
      if t.text == "." && |names| > 0 {
        ScanKeepsText(r.names, r.nameCont, tokens[1..], keywords);
        ConcatReplaceLast(names, ".");
        ConcatPrepend(".", rest);
      } else if t.kind == NAME && t.text !in keywords {
        ScanKeepsText(r.names, r.nameCont, tokens[1..], keywords);
        if cont {
          ConcatReplaceLast(names, t.text);
        } else {
          assert r.names == names + [t.text];
          assert (names + [t.text])[..|names|] == names;
        }
        ConcatPrepend(t.text, rest);
      } else if t.kind != NEWLINE {
        ScanKeepsText(r.names, r.nameCont, tokens[1..], keywords);
      }
    }
  }

  /** The extracted names read together are the kept texts of the line. */
  lemma DottedNamesKeepText(tokens: seq<Token>, keywords: set<string>)
    ensures Concat(DottedNames(tokens, keywords)) == Concat(Kept(tokens, false, keywords))
  {
    ScanKeepsText([], false, tokens, keywords);
  }

  /** Names either are no keyword or contain a dot; a continuation always follows a dot. */
  ghost predicate NamesInvariant(names: seq<string>, cont: bool, keywords: set<string>)
  {
    && (forall n :: n in names ==> n !in keywords || '.' in n)
    && (cont ==> |names| > 0 && '.' in Last(names))
  }

  lemma {:induction false} ScanKeepsInvariant(names: seq<string>, cont: bool, tokens: seq<Token>, keywords: set<string>)
    requires NamesInvariant(names, cont, keywords)
    ensures forall n :: n in Scan(names, cont, tokens, keywords) ==> n !in keywords || '.' in n
    decreases |tokens|
  {
    if tokens != [] {
      var t := tokens[0];
      var r := EatToken(names, cont, t, keywords);
      if !r.stop {
        if |names| > 0 {
          var init := names[..|names| - 1];
          assert forall n :: n in init ==> n in names;
          assert '.' in Last(names) + "." by {
            assert (Last(names) + ".")[|Last(names)|] == '.';
          }
          if cont {
            var k :| 0 <= k < |Last(names)| && Last(names)[k] == '.';
            assert (Last(names) + t.text)[k] == '.';
          }
        }
        ScanKeepsInvariant(r.names, r.nameCont, tokens[1..], keywords);
      }
    }
  }

  /** Keywords are never emitted as names (keywords contain no dot). */
  lemma NoKeywordNames(tokens: seq<Token>, keywords: set<string>)
    requires forall k :: k in keywords ==> '.' !in k
    ensures forall n :: n in LineNames(tokens, keywords) ==> n !in keywords
  {
    ScanKeepsInvariant([], false, tokens, keywords);
    UniqStable.UniqSameElements(DottedNames(tokens, keywords));
  }

  /** Scanning stops at the first NEWLINE: nothing from that token on affects the names. */
  lemma {:induction false} ScanStopsAtNewline(names: seq<string>, cont: bool, pre: seq<Token>, nl: Token, post: seq<Token>, keywords: set<string>)
    requires nl.kind == NEWLINE && nl.text != "."
    ensures Scan(names, cont, pre + [nl] + post, keywords) == Scan(names, cont, pre, keywords)
    decreases |pre|
  {
    if pre == [] {
      assert pre + [nl] + post == [nl] + post;
    } else {
      assert (pre + [nl] + post)[0] == pre[0];
      assert (pre + [nl] + post)[1..] == pre[1..] + [nl] + post;
      var r := EatToken(names, cont, pre[0], keywords);
      if !r.stop {
        ScanStopsAtNewline(r.names, r.nameCont, pre[1..], nl, post, keywords);
      }
    }
  }

  lemma LineNamesStopAtNewline(pre: seq<Token>, nl: Token, post: seq<Token>, keywords: set<string>)
    requires nl.kind == NEWLINE && nl.text != "."
    ensures LineNames(pre + [nl] + post, keywords) == LineNames(pre, keywords)
  {
    ScanStopsAtNewline([], false, pre, nl, post, keywords);
  }

  /** The extracted names are free of duplicates and in order of first appearance. */
  lemma LineNamesAreUnique(tokens: seq<Token>, keywords: set<string>)
    ensures UniqStable.NoDuplicates(LineNames(tokens, keywords))
    ensures forall n :: n in LineNames(tokens, keywords) <==> n in DottedNames(tokens, keywords)
  {
    UniqStable.UniqNoDuplicates(DottedNames(tokens, keywords));
    UniqStable.UniqSameElements(DottedNames(tokens, keywords));
  }
}
