/** `textwrap.indent(text, prefix)` with its default predicate: the text is
    split with `str.splitlines(True)` and every line for which `line.strip()`
    is non-empty gets the prefix. Line boundaries and white space are the
    ones Python's `str` uses. */
module TextWrap {

  /** The characters at which `str.splitlines` ends a line. */
  predicate IsLineBreak(c: char)
  {
    c == '\n' || c == '\r' || c == '\U{b}' || c == '\U{c}'
    || c == '\U{1c}' || c == '\U{1d}' || c == '\U{1e}'
    || c == '\U{85}' || c == '\U{2028}' || c == '\U{2029}'
  }

  /** The characters that `str.strip()` removes (`str.isspace`). */
  predicate IsSpace(c: char)
  {
    ('\t' <= c <= '\r') || ('\U{1c}' <= c <= ' ')
    || c == '\U{85}' || c == '\U{a0}' || c == '\U{1680}'
    || ('\U{2000}' <= c <= '\U{200a}')
    || c == '\U{2028}' || c == '\U{2029}' || c == '\U{202f}'
    || c == '\U{205f}' || c == '\U{3000}'
  }

  predicate NoLineBreak(s: string)
  {
    forall i :: 0 <= i < |s| ==> !IsLineBreak(s[i])
  }

  /** `line.strip()` is non-empty. */
  predicate HasNonSpace(s: string)
  {
    exists i :: 0 <= i < |s| && !IsSpace(s[i])
  }

  /** Length of the first line of `s` together with its terminator; a
      "\r\n" pair ends one line. */
  function FirstLineLength(s: string): (k: nat)
    requires s != []
    ensures 0 < k <= |s|
    ensures k < |s| ==> IsLineBreak(s[k - 1])
    ensures forall i :: 0 <= i < k - 1 && IsLineBreak(s[i]) ==> i == k - 2 && s[i] == '\r' && s[k - 1] == '\n'
    ensures k < |s| && s[k - 1] == '\r' ==> s[k] != '\n'
    decreases |s|
  {
    if s[0] == '\r' && |s| > 1 && s[1] == '\n' then 2
    else if IsLineBreak(s[0]) || |s| == 1 then 1
    else 1 + FirstLineLength(s[1..])
  }

  /** One line as `indent` writes it: prefixed unless it is blank. */
  function PrefixLine(prefix: string, line: string): string
  {
    if HasNonSpace(line) then prefix + line else line
  }

  /** `textwrap.indent(s, prefix)`. */
  function Indent(prefix: string, s: string): string
    decreases |s|
  {
    if s == [] then []
    else
      var k := FirstLineLength(s);
      PrefixLine(prefix, s[..k]) + Indent(prefix, s[k..])
  }

  /** The first line of a text that ends in "\n" stops inside that text, so
      what follows it does not change where the line ends. */
  lemma {:induction false} FirstLineOfPrefix(a: string, b: string)
    requires a != [] && a[|a| - 1] == '\n'
    ensures FirstLineLength(a + b) == FirstLineLength(a)
    decreases |a|
  {
    var s := a + b;
    if s[0] == '\r' && |s| > 1 && s[1] == '\n' {
      assert |a| > 1;
    } else if IsLineBreak(s[0]) {
    } else {
      assert |a| > 1;
      assert s[1..] == a[1..] + b;
      FirstLineOfPrefix(a[1..], b);
    }
  }

  /** Indenting is done line by line: cutting the text after a "\n" and
      indenting both parts gives the same result. */
  lemma {:induction false} IndentAppend(prefix: string, a: string, b: string)
    requires a == [] || a[|a| - 1] == '\n'
    ensures Indent(prefix, a + b) == Indent(prefix, a) + Indent(prefix, b)
    decreases |a|
  {
    if a != [] {
      var k := FirstLineLength(a);
      SplitAfterFirstLine(a, b);
      IndentAppend(prefix, a[k..], b);
      var line := PrefixLine(prefix, a[..k]);
      calc {
        Indent(prefix, a + b);
        line + Indent(prefix, a[k..] + b);
        line + (Indent(prefix, a[k..]) + Indent(prefix, b));
        { ConcatAssociates(line, Indent(prefix, a[k..]), Indent(prefix, b)); }
        Indent(prefix, a) + Indent(prefix, b);
      }
    } else {
      assert a + b == b;
    }
  }


  /** Concatenation of strings is associative. */
  lemma ConcatAssociates(x: string, y: string, z: string)
    ensures x + (y + z) == (x + y) + z
  {
  }

  /** Appending to a text that ends in "\n" leaves its first line alone, and
      the rest of the text still ends in "\n". */
  lemma SplitAfterFirstLine(a: string, b: string)
    requires a != [] && a[|a| - 1] == '\n'
    ensures var k := FirstLineLength(a);
            && FirstLineLength(a + b) == k
            && (a + b)[..k] == a[..k]
            && (a + b)[k..] == a[k..] + b
            && (a[k..] == [] || a[k..][|a[k..]| - 1] == '\n')
  {
    FirstLineOfPrefix(a, b);
  }


  /** A single line without an inner line break gets the prefix exactly
      when it has a character that is not white space. */
  lemma IndentLine(prefix: string, line: string)
    requires NoLineBreak(line)
    ensures Indent(prefix, line + "\n")
            == (if HasNonSpace(line + "\n") then prefix + line + "\n" else line + "\n")
  {
    var s := line + "\n";
    var k := FirstLineLength(s);
    assert k == |s|;
    assert s[..k] == s && s[k..] == [];
  }

  /** A line filled in from a template: the template's text around the
      inserted value, and the value itself, hold no line break, and the
      template's text holds something visible. */
  lemma FilledLine(open: string, x: string, close: string)
    requires NoLineBreak(open) && NoLineBreak(x) && NoLineBreak(close)
    requires HasNonSpace(open)
    ensures NoLineBreak(open + x + close) && HasNonSpace(open + x + close)
  {
    var s := open + x + close;
    forall i | 0 <= i < |s| ensures !IsLineBreak(s[i]) {
      if i < |open| {
        assert s[i] == open[i];
      } else if i < |open| + |x| {
        assert s[i] == x[i - |open|];
      } else {
        assert s[i] == close[i - |open| - |x|];
      }
    }
    var j :| 0 <= j < |open| && !IsSpace(open[j]);
    assert s[j] == open[j];
  }

  /** A line with visible text and no line break gets the prefix. */
  lemma IndentFlatLine(prefix: string, line: string)
    requires NoLineBreak(line) && HasNonSpace(line)
    ensures Indent(prefix, line + "\n") == prefix + line + "\n"
  {
    IndentLine(prefix, line);
    assert HasNonSpace(line + "\n") by {
      var i :| 0 <= i < |line| && !IsSpace(line[i]);
      assert (line + "\n")[i] == line[i];
    }
  }

  /** Lines written one after the other, each followed by "\n". */
  function Lines(ls: seq<string>): string
    decreases |ls|
  {
    if ls == [] then [] else ls[0] + "\n" + Lines(ls[1..])
  }

  /** The same lines, each with `prefix` in front. */
  function PrefixedLines(prefix: string, ls: seq<string>): string
    decreases |ls|
  {
    if ls == [] then [] else prefix + ls[0] + "\n" + PrefixedLines(prefix, ls[1..])
  }

  /** Lines that each hold visible text and no inner line break all get the
      prefix. */
  lemma {:induction false} IndentLines(prefix: string, ls: seq<string>)
    requires forall k :: 0 <= k < |ls| ==> NoLineBreak(ls[k]) && HasNonSpace(ls[k])
    ensures Indent(prefix, Lines(ls)) == PrefixedLines(prefix, ls)
    decreases |ls|
  {
    if ls != [] {
      var first := ls[0] + "\n";
      assert Lines(ls) == first + Lines(ls[1..]);
      IndentAppend(prefix, first, Lines(ls[1..]));
      IndentFlatLine(prefix, ls[0]);
      IndentLines(prefix, ls[1..]);
      calc {
        Indent(prefix, Lines(ls));
        Indent(prefix, first) + Indent(prefix, Lines(ls[1..]));
        prefix + ls[0] + "\n" + PrefixedLines(prefix, ls[1..]);
      }
    }
  }

  /** An empty first line stays empty; the lines after it are indented as
      `IndentLines` says. */
  lemma IndentAfterBlankLine(prefix: string, ls: seq<string>)
    requires forall k :: 0 <= k < |ls| ==> NoLineBreak(ls[k]) && HasNonSpace(ls[k])
    ensures Indent(prefix, "\n" + Lines(ls)) == "\n" + PrefixedLines(prefix, ls)
  {
    IndentAppend(prefix, "\n", Lines(ls));
    IndentLine(prefix, "");
    assert "" + "\n" == "\n";
    assert !HasNonSpace("\n") by {
      assert IsSpace("\n"[0]);
    }
    IndentLines(prefix, ls);
  }
}
