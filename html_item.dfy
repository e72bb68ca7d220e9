/** The `<li>` blocks the HTML reports write for each listed link: a
    template of lines, dedented, filled in with `str.format`, and passed
    through `textwrap.indent(s, " " * 8)`. Every template opens with a
    blank line, then `<li>`, its own lines, and `</li>`, and ends with a
    newline; the last line of each template is the link line, in which the
    url is both the target and the text. */
module HtmlItem {
  import TextWrap

  /** The prefix `indent` puts in front of each item line. */
  const Pad: string := "        "

  const ItemOpen: string := "<li>"
  const ItemClose: string := "</li>"
  const ParaOpen: string := "    <p>"
  const BreakTag: string := "<br />"
  const LinkOpen: string := "    <a target=\"_blank\" href=\""
  const QuoteClose: string := "\">"
  const LinkClose: string := "</a></p>"

  /** `<a target="_blank" href="{url}">{url}</a></p>`, indented by four. */
  function LinkLine(url: string): string
  {
    LinkOpen + url + QuoteClose + url + LinkClose
  }

  /** The block written for one item whose lines between `<li>` and
      `</li>` are `lines`. */
  function Item(lines: seq<string>): string
  {
    TextWrap.Indent(Pad, "\n" + TextWrap.Lines([ItemOpen] + lines + [ItemClose]))
  }

  /** A line `indent` gives its prefix: visible text and no line break. */
  predicate Flat(s: string)
  {
    TextWrap.NoLineBreak(s) && TextWrap.HasNonSpace(s)
  }

  /** A fragment of printable ASCII text holds no line break, and it has
      visible text when its character at `i` is not a blank. */
  lemma Printable(s: string, i: nat)
    requires forall k :: 0 <= k < |s| ==> ' ' <= s[k] <= '~'
    requires i < |s| && s[i] != ' '
    ensures Flat(s)
  {
    assert !TextWrap.IsSpace(s[i]);
  }

  /** The template text of the shared lines holds no line break. */
  lemma SharedFragments()
    ensures Flat(ItemOpen) && Flat(ItemClose) && Flat(ParaOpen) && Flat(LinkOpen)
    ensures TextWrap.NoLineBreak(BreakTag) && TextWrap.NoLineBreak(QuoteClose)
    ensures TextWrap.NoLineBreak(LinkClose)
  {
    assert Flat(ItemOpen) by { Printable(ItemOpen, 0); }
    assert Flat(ItemClose) by { Printable(ItemClose, 0); }
    assert Flat(ParaOpen) by { Printable(ParaOpen, 4); }
    LinkOpenFlat();
    assert TextWrap.NoLineBreak(BreakTag) by { Printable(BreakTag, 0); }
    assert TextWrap.NoLineBreak(QuoteClose) by { Printable(QuoteClose, 1); }
    assert TextWrap.NoLineBreak(LinkClose) by { Printable(LinkClose, 0); }
  }

  /** The opening of the link line has visible text and no line break. */
  lemma LinkOpenFlat()
    ensures Flat(LinkOpen)
  {
    Printable(LinkOpen, 4);
  }

  /** A line made of a template fragment with visible text, a field, and a
      closing fragment is flat when the field and the closing fragment hold
      no line break. */
  lemma Filled(open: string, x: string, close: string)
    requires Flat(open) && TextWrap.NoLineBreak(x) && TextWrap.NoLineBreak(close)
    ensures Flat(open + x + close)
  {
    TextWrap.FilledLine(open, x, close);
  }

  /** A url without line breaks gives a flat link line. */
  lemma LinkLineFlat(url: string)
    requires TextWrap.NoLineBreak(url)
    ensures Flat(LinkLine(url))
  {
    SharedFragments();
    Filled(LinkOpen, url, QuoteClose);
    Filled(LinkOpen + url + QuoteClose, url, LinkClose);
  }

  /** When every line of the item is flat, the block is a blank line
      followed by each template line with exactly the eight-space prefix:
      `indent` neither splits nor skips any of them. */
  lemma ItemText(lines: seq<string>)
    requires forall k :: 0 <= k < |lines| ==> Flat(lines[k])
    ensures Item(lines) == "\n" + TextWrap.PrefixedLines(Pad, [ItemOpen] + lines + [ItemClose])
  {
    BlockFlat(lines);
    TextWrap.IndentAfterBlankLine(Pad, [ItemOpen] + lines + [ItemClose]);
  }

  /** With `<li>` and `</li>` around flat lines, every line is flat. */
  lemma BlockFlat(lines: seq<string>)
    requires forall k :: 0 <= k < |lines| ==> Flat(lines[k])
    ensures var all := [ItemOpen] + lines + [ItemClose];
            forall k :: 0 <= k < |all| ==> TextWrap.NoLineBreak(all[k]) && TextWrap.HasNonSpace(all[k])
  {
    var all := [ItemOpen] + lines + [ItemClose];
    forall k | 0 <= k < |all|
      ensures TextWrap.NoLineBreak(all[k]) && TextWrap.HasNonSpace(all[k])
    {
      if k == 0 {
        assert Flat(ItemOpen) by { Printable(ItemOpen, 0); }
      } else if k == |all| - 1 {
        assert Flat(ItemClose) by { Printable(ItemClose, 0); }
      } else {
        assert all[k] == lines[k - 1];
      }
    }
  }

}
