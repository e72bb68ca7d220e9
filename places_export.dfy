/** The report writers of export-from-places.py: the history, bookmark and
    frecency CSV files and the bookmark, frecency and GitHub HTML pages.
    export_firefox_data.py carries the same history, bookmark and frecency
    writers, line for line, except that its HTML pages use its own head and
    tail; `Frame` says which of the two page frames a page is written in.

    Each writer is given the rows its SQL query returns, in the order the
    query returns them, and returns what it writes to its file, one element
    per `write` call. Python's `ascii()` and the rendering of a visit date
    by `datetime.fromtimestamp` are parameters. */
module PlacesExport {
  import opened Wrappers
  import PyStr
  import Truncate
  import Csv
  import TextWrap
  import HtmlItem
  import FirefoxExport

  /** A row of the history query: `p.url`, `p.title` (nullable),
      `p.rev_host`, `p.visit_count`, `p.frecency`, `h.visit_date`
      (microseconds since the Unix epoch). */
  datatype HistoryRow = HistoryRow(url: string, title: Option<string>, revHost: string,
                                   visitCount: int, frecency: int, visitDate: int)

  /** A row of the bookmark query: the parent folder's title and the
      bookmark's title (both nullable), and the url. */
  datatype BookmarkRow = BookmarkRow(parentTitle: Option<string>, title: Option<string>, url: string)

  /** A row of the frecency query: `url`, `title` (nullable), `frecency`. */
  datatype PlaceRow = PlaceRow(url: string, title: Option<string>, frecency: int)

  // ---------------------------------------------------------------------
  // Page frame

  const HeadOpen: string :=
    "\n<!DOCTYPE html>\n<html lang=\"en\">\n<head>\n    <title>"

  /** Between the two copies of the title; it ends by opening `<h1>`. */
  const HeadMiddle: string := HeadBody + H1Open

  const H1Open: string := "<h1>"

  const HeadBody: string :=
    "</title>\n"
    + "    <meta http-equiv=\"Content-Type\" content=\"text/html; charset=UTF-8\">\n"
    + "    <link rel=\"stylesheet\" href=\"style.css\" />\n"
    + "</head>\n"
    + "<body>\n"
    + "    "

  const HeadClose: string := "</h1>\n    <ul>\n"

  /** `html_tail()`. */
  function HtmlTail(): string
  {
    "\n</ul>\n</body>\n</html>\n"
  }

  /** `html_head(title)`: the page links the external style sheet, and the
      same title is the text of `<title>` and of `<h1>`. */
  function HtmlHead(title: string): string
  {
    HeadOpen + title + HeadMiddle + title + HeadClose
  }

  /** The head opens `<title>` with the title and ends with the same title
      as the text of `<h1>`, followed by the opening of the list. */
  lemma HtmlHeadTitles(title: string)
    ensures var r := HtmlHead(title);
            && r[..|HeadOpen| + |title|] == HeadOpen + title
            && r[|r| - 4 - |title| - |HeadClose|..] == "<h1>" + title + HeadClose
  {
    FirefoxExport.TitledTwice(HeadOpen, title, HeadBody, H1Open, HeadClose);
  }

  /** Which program's `html_head` and `html_tail` frame a page. */
  datatype Frame = PlacesFrame | FirefoxFrame

  function Head(frame: Frame, title: string): string
  {
    match frame
    case PlacesFrame => HtmlHead(title)
    case FirefoxFrame => FirefoxExport.HtmlHead(title)
  }

  function TailOf(frame: Frame): string
  {
    match frame
    case PlacesFrame => HtmlTail()
    case FirefoxFrame => FirefoxExport.HtmlTail()
  }

  // ---------------------------------------------------------------------
  // CSV lines

  const HistoryHeader: string := "url,title,host,visit_count,frecency,visit_date\n"
  const BookmarksHeader: string := "parent_title,bookmark_title,url\n"
  const FrecencyHeader: string := "url,title,frecency\n"

  /** The title field of the history file: `str(title)` with every double
      quote turned into a single quote, then limited. It never holds a
      double quote, and a title of at most 180 characters keeps its length
      and all its other characters. */
  function HistoryTitle(title: Option<string>): (r: string)
    ensures '"' !in r
    ensures |r| <= Truncate.MaxLength
    ensures |PyStr.StrOf(title)| <= Truncate.MaxLength ==>
              && |r| == |PyStr.StrOf(title)|
              && forall i :: 0 <= i < |r| ==>
                   r[i] == (if PyStr.StrOf(title)[i] == '"' then '\'' else PyStr.StrOf(title)[i])
  {
    var t := PyStr.ReplaceChar(PyStr.StrOf(title), '"', '\'');
    Truncate.LimitedKeepsOut(t, '"');
    Truncate.Limited(t)
  }

  /** The six fields of one history line: limited url, title, the host
      (`rev_host` read backwards), visit count, frecency and visit date. */
  function HistoryFields(row: HistoryRow, dateText: int -> string): seq<string>
  {
    [ Truncate.Limited(row.url),
      HistoryTitle(row.title),
      PyStr.Reverse(row.revHost),
      PyStr.Decimal(row.visitCount),
      PyStr.Decimal(row.frecency),
      dateText(row.visitDate) ]
  }

  function HistoryLine(row: HistoryRow, dateText: int -> string): string
  {
    Csv.Record(HistoryFields(row, dateText))
  }

  /** The numbers are written in decimal, which holds no double quote. */
  lemma DecimalQuoteFree(n: int)
    ensures '"' !in PyStr.Decimal(n)
  {
    PyStr.DecimalCharacters(n);
  }

  /** A history line whose url, reversed host and date hold no double
      quote reads back into its six fields: the limited url, the title
      field, a host that reversed again is `rev_host`, and the visit count
      and frecency as the numbers they were. */
  lemma HistoryLineReadBack(row: HistoryRow, dateText: int -> string)
    requires '"' !in row.url && '"' !in row.revHost && '"' !in dateText(row.visitDate)
    ensures var f := Csv.ParseRecord(HistoryLine(row, dateText));
            && f.Some? && |f.value| == 6
            && f.value[0] == Truncate.Limited(row.url)
            && f.value[1] == HistoryTitle(row.title)
            && PyStr.Reverse(f.value[2]) == row.revHost
            && PyStr.ParseDecimal(f.value[3]) == Some(row.visitCount)
            && PyStr.ParseDecimal(f.value[4]) == Some(row.frecency)
            && f.value[5] == dateText(row.visitDate)
  {
    var fields := HistoryFields(row, dateText);
    assert Csv.QuoteFree(fields) by {
      Truncate.LimitedKeepsOut(row.url, '"');
      ReverseQuoteFree(row.revHost);
      DecimalQuoteFree(row.visitCount);
      DecimalQuoteFree(row.frecency);
    }
    Csv.RecordRoundTrip(fields);
    assert Csv.ParseRecord(HistoryLine(row, dateText)) == Some(fields);
    PyStr.ReverseInvolution(row.revHost);
    PyStr.DecimalRoundTrip(row.visitCount);
    PyStr.DecimalRoundTrip(row.frecency);
  }

  /** Reading a host without double quotes backwards adds none. */
  lemma ReverseQuoteFree(s: string)
    requires '"' !in s
    ensures '"' !in PyStr.Reverse(s)
  {
    var r := PyStr.Reverse(s);
    forall i | 0 <= i < |r| ensures r[i] != '"' {
      assert r[i] == s[|s| - 1 - i];
    }
  }

  /** One line of the bookmark file: parent title, bookmark title and url,
      written as `str` writes them (a missing title is "None"), neither
      limited nor escaped. */
  function BookmarkCsvLine(row: BookmarkRow): string
  {
    Csv.Record([PyStr.StrOf(row.parentTitle), PyStr.StrOf(row.title), row.url])
  }

  /** A bookmark line whose fields hold no double quote reads back into
      exactly those three fields. */
  lemma BookmarkCsvReadBack(row: BookmarkRow)
    requires '"' !in PyStr.StrOf(row.parentTitle) && '"' !in PyStr.StrOf(row.title) && '"' !in row.url
    ensures Csv.ParseRecord(BookmarkCsvLine(row)) == Some([PyStr.StrOf(row.parentTitle), PyStr.StrOf(row.title), row.url])
  {
    Csv.RecordRoundTrip([PyStr.StrOf(row.parentTitle), PyStr.StrOf(row.title), row.url]);
  }

  /** One line of the frecency file: limited url, limited `str(title)` and
      the frecency in decimal. */
  function FrecencyCsvLine(row: PlaceRow): string
  {
    Csv.Record([Truncate.Limited(row.url), Truncate.Limited(PyStr.StrOf(row.title)), PyStr.Decimal(row.frecency)])
  }

  /** A frecency line whose url and title hold no double quote reads back
      into the limited url, the limited title and the frecency. */
  lemma FrecencyCsvReadBack(row: PlaceRow)
    requires '"' !in row.url && '"' !in PyStr.StrOf(row.title)
    ensures var f := Csv.ParseRecord(FrecencyCsvLine(row));
            && f.Some? && |f.value| == 3
            && f.value[0] == Truncate.Limited(row.url)
            && f.value[1] == Truncate.Limited(PyStr.StrOf(row.title))
            && PyStr.ParseDecimal(f.value[2]) == Some(row.frecency)
  {
    Truncate.LimitedKeepsOut(row.url, '"');
    Truncate.LimitedKeepsOut(PyStr.StrOf(row.title), '"');
    DecimalQuoteFree(row.frecency);
    Csv.RecordRoundTrip([Truncate.Limited(row.url), Truncate.Limited(PyStr.StrOf(row.title)), PyStr.Decimal(row.frecency)]);
    PyStr.DecimalRoundTrip(row.frecency);
  }

  // ---------------------------------------------------------------------
  // HTML items

  const BoldOpen: string := "    <b>"
  const BoldClose: string := "</b><br />"

  /** The bookmark item's lines between `<li>` and `</li>`. */
  function BookmarkLines(parent: string, title: string, url: string): seq<string>
  {
    [ HtmlItem.ParaOpen + parent + HtmlItem.BreakTag,
      BoldOpen + title + BoldClose,
      HtmlItem.LinkLine(url) ]
  }

  /** The block for one bookmark: the limited parent title, the limited
      `ascii()` of the title in bold, and the url as a link. */
  function BookmarkItem(row: BookmarkRow, ascii: Option<string> -> string): string
  {
    HtmlItem.Item(BookmarkLines(Truncate.Limited(PyStr.StrOf(row.parentTitle)),
                                Truncate.Limited(ascii(row.title)), row.url))
  }

  /** The frecency item's lines between `<li>` and `</li>`. */
  function FrecencyLines(title: string, url: string): seq<string>
  {
    [ HtmlItem.ParaOpen + title + HtmlItem.BreakTag,
      HtmlItem.LinkLine(url) ]
  }

  /** The block for one place: its title as `str` writes it, not limited,
      and the url as a link. */
  function FrecencyItem(row: PlaceRow): string
  {
    HtmlItem.Item(FrecencyLines(PyStr.StrOf(row.title), row.url))
  }

  lemma BoldFragments()
    ensures HtmlItem.Flat(BoldOpen) && TextWrap.NoLineBreak(BoldClose)
  {
    assert HtmlItem.Flat(BoldOpen) by { HtmlItem.Printable(BoldOpen, 4); }
    assert TextWrap.NoLineBreak(BoldClose) by { HtmlItem.Printable(BoldClose, 0); }
  }

  /** When the inserted texts hold no line break, the bookmark block is a
      blank line and the five template lines, each with the eight-space
      prefix. */
  lemma BookmarkItemText(row: BookmarkRow, ascii: Option<string> -> string)
    requires TextWrap.NoLineBreak(Truncate.Limited(PyStr.StrOf(row.parentTitle)))
    requires TextWrap.NoLineBreak(Truncate.Limited(ascii(row.title)))
    requires TextWrap.NoLineBreak(row.url)
    ensures BookmarkItem(row, ascii)
            == "\n" + TextWrap.PrefixedLines(HtmlItem.Pad,
                 [HtmlItem.ItemOpen]
                 + BookmarkLines(Truncate.Limited(PyStr.StrOf(row.parentTitle)), Truncate.Limited(ascii(row.title)), row.url)
                 + [HtmlItem.ItemClose])
  {
    HtmlItem.SharedFragments();
    BoldFragments();
    HtmlItem.Filled(HtmlItem.ParaOpen, Truncate.Limited(PyStr.StrOf(row.parentTitle)), HtmlItem.BreakTag);
    HtmlItem.Filled(BoldOpen, Truncate.Limited(ascii(row.title)), BoldClose);
    HtmlItem.LinkLineFlat(row.url);
    HtmlItem.ItemText(BookmarkLines(Truncate.Limited(PyStr.StrOf(row.parentTitle)), Truncate.Limited(ascii(row.title)), row.url));
  }

  /** When the title and url hold no line break, the frecency block is a
      blank line and the four template lines, each with the eight-space
      prefix. */
  lemma FrecencyItemText(row: PlaceRow)
    requires TextWrap.NoLineBreak(PyStr.StrOf(row.title)) && TextWrap.NoLineBreak(row.url)
    ensures FrecencyItem(row)
            == "\n" + TextWrap.PrefixedLines(HtmlItem.Pad,
                 [HtmlItem.ItemOpen] + FrecencyLines(PyStr.StrOf(row.title), row.url) + [HtmlItem.ItemClose])
  {
    HtmlItem.SharedFragments();
    HtmlItem.Filled(HtmlItem.ParaOpen, PyStr.StrOf(row.title), HtmlItem.BreakTag);
    HtmlItem.LinkLineFlat(row.url);
    HtmlItem.ItemText(FrecencyLines(PyStr.StrOf(row.title), row.url));
  }

  // ---------------------------------------------------------------------
  // Writers

  /** `write_history_csv`: the header, then one line per visit row. */
  method WriteHistoryCsv(rows: seq<HistoryRow>, dateText: int -> string) returns (writes: seq<string>)
    ensures |writes| == |rows| + 1
    ensures writes[0] == HistoryHeader
    ensures forall i :: 0 <= i < |rows| ==> writes[i + 1] == HistoryLine(rows[i], dateText)
  {
    writes := [HistoryHeader];
    for i := 0 to |rows|
      invariant |writes| == i + 1 && writes[0] == HistoryHeader
      invariant forall j :: 0 <= j < i ==> writes[j + 1] == HistoryLine(rows[j], dateText)
    {
      var row := rows[i];
      var url := Truncate.Limited(row.url);
      var title := HistoryTitle(row.title);
      var host := PyStr.Reverse(row.revHost);
      writes := writes + [Csv.Record([url, title, host, PyStr.Decimal(row.visitCount),
                                      PyStr.Decimal(row.frecency), dateText(row.visitDate)])];
    }
  }

  /** `write_bookmarks_csv`: the header, then one line per bookmark row. */
  method WriteBookmarksCsv(rows: seq<BookmarkRow>) returns (writes: seq<string>)
    ensures |writes| == |rows| + 1
    ensures writes[0] == BookmarksHeader
    ensures forall i :: 0 <= i < |rows| ==> writes[i + 1] == BookmarkCsvLine(rows[i])
  {
    writes := [BookmarksHeader];
    for i := 0 to |rows|
      invariant |writes| == i + 1 && writes[0] == BookmarksHeader
      invariant forall j :: 0 <= j < i ==> writes[j + 1] == BookmarkCsvLine(rows[j])
    {
      writes := writes + [BookmarkCsvLine(rows[i])];
    }
  }

  /** `write_frecency_csv`: the header, then one line per place row. */
  method WriteFrecencyCsv(rows: seq<PlaceRow>) returns (writes: seq<string>)
    ensures |writes| == |rows| + 1
    ensures writes[0] == FrecencyHeader
    ensures forall i :: 0 <= i < |rows| ==> writes[i + 1] == FrecencyCsvLine(rows[i])
  {
    writes := [FrecencyHeader];
    for i := 0 to |rows|
      invariant |writes| == i + 1 && writes[0] == FrecencyHeader
      invariant forall j :: 0 <= j < i ==> writes[j + 1] == FrecencyCsvLine(rows[j])
    {
      writes := writes + [FrecencyCsvLine(rows[i])];
    }
  }

  /** The loop every HTML report shares: the head, then the block of each
      row in order, then the tail. */
  method WritePage<R>(head: string, rows: seq<R>, item: R -> string, tail: string)
    returns (writes: seq<string>)
    ensures |writes| == |rows| + 2
    ensures writes[0] == head && writes[|rows| + 1] == tail
    ensures forall i :: 0 <= i < |rows| ==> writes[i + 1] == item(rows[i])
  {
    writes := [head];
    for i := 0 to |rows|
      invariant |writes| == i + 1 && writes[0] == head
      invariant forall j :: 0 <= j < i ==> writes[j + 1] == item(rows[j])
    {
      writes := writes + [item(rows[i])];
    }
    writes := writes + [tail];
  }

  const BookmarksTitle: string := "Bookmarks"
  const GithubTitle: string := "Bookmarks/GitHub"
  const FrecencyTitle: string := "Top 100 Recent/Frequent  Links"

  /** `write_bookmarks_html`. */
  method WriteBookmarksHtml(frame: Frame, rows: seq<BookmarkRow>, ascii: Option<string> -> string)
    returns (writes: seq<string>)
    ensures |writes| == |rows| + 2
    ensures writes[0] == Head(frame, BookmarksTitle) && writes[|rows| + 1] == TailOf(frame)
    ensures forall i :: 0 <= i < |rows| ==> writes[i + 1] == BookmarkItem(rows[i], ascii)
  {
    writes := WritePage(Head(frame, BookmarksTitle), rows, row => BookmarkItem(row, ascii), TailOf(frame));
  }

  /** `write_github_links_html` of export-from-places.py: the rows are those
      the query keeps for GitHub urls, already ordered, and each is written
      as on the bookmark page. */
  method WriteGithubLinksHtml(rows: seq<BookmarkRow>, ascii: Option<string> -> string)
    returns (writes: seq<string>)
    ensures |writes| == |rows| + 2
    ensures writes[0] == HtmlHead(GithubTitle) && writes[|rows| + 1] == HtmlTail()
    ensures forall i :: 0 <= i < |rows| ==> writes[i + 1] == BookmarkItem(rows[i], ascii)
  {
    writes := WritePage(HtmlHead(GithubTitle), rows, row => BookmarkItem(row, ascii), HtmlTail());
  }

  /** `write_frecency_html`: head, one item per place row, tail. */
  method WriteFrecencyHtml(frame: Frame, rows: seq<PlaceRow>) returns (writes: seq<string>)
    ensures |writes| == |rows| + 2
    ensures writes[0] == Head(frame, FrecencyTitle) && writes[|rows| + 1] == TailOf(frame)
    ensures forall i :: 0 <= i < |rows| ==> writes[i + 1] == FrecencyItem(rows[i])
  {
    writes := WritePage(Head(frame, FrecencyTitle), rows, FrecencyItem, TailOf(frame));
  }
}
