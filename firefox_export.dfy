/** export_firefox_data.py: the page frame of its HTML reports, the
    resolved bookmark list (`get_bookmarks`) and the GitHub links report
    (`write_github_links_html`). The store is given as its rows: the
    `moz_bookmarks` table for the folder walk and the rows of the bookmark
    query. Python's `ascii()` is a parameter. Each write to the output file
    is one element of the returned sequence. */
module FirefoxExport {
  import opened Wrappers
  import PyStr
  import TextWrap
  import HtmlItem
  import Truncate
  import FolderPath
  import StableSort

  /** `Bookmark(title, url, parent_path)`. */
  datatype Bookmark = Bookmark(title: string, url: string, parentPath: string)

  /** A row of the bookmark query: `a.title` (nullable), `b.url`, `a.parent`. */
  datatype BookmarkRow = BookmarkRow(title: Option<string>, url: string, parent: int)

  // ---------------------------------------------------------------------
  // Page frame

  /** `html_style()`: the inline style sheet, with the template's leading
      newline and trailing white space stripped. */
  function HtmlStyle(): string
  {
    "        body {\n"
    + "            font-family: sans-serif;\n"
    + "            padding: 2rem;\n"
    + "        }\n"
    + "        .bookmark-path {\n"
    + "            /* color: #258d25; */\n"
    + "            color: gray;\n"
    + "        }\n"
    + "        .bookmark-title {\n"
    + "            /* color: #7a361f; */\n"
    + "            color: black;\n"
    + "        }"
  }

  /** The dedented `html_head` template up to the first title. */
  const HeadOpen: string :=
    "\n<!DOCTYPE html>\n<html lang=\"en\">\n<head>\n    <title>"

  /** Between the two copies of the title, holding the style sheet; it
      ends by opening `<h1>`. */
  const HeadMiddle: string := HeadBody + H1Open

  const H1Open: string := "<h1>"

  const HeadBody: string :=
    "</title>\n"
    + "    <meta http-equiv=\"Content-Type\" content=\"text/html; charset=UTF-8\">\n"
    + "    <style>\n"
    + HtmlStyle() + "\n"
    + "    </style>\n"
    + "</head>\n"
    + "<body>\n"

  const HeadClose: string := "</h1>\n<ul>\n"

  /** `html_tail()`: closes the list and the page; no footer element. */
  function HtmlTail(): string
  {
    "\n</ul>\n<p>&nbsp;</p>\n<hr>\n</body>\n</html>\n"
  }

  /** `html_head(title)`: the same title is the text of `<title>` and of
      `<h1>`. */
  function HtmlHead(title: string): string
  {
    HeadOpen + title + HeadMiddle + title + HeadClose
  }

  /** A head template filled with the same title twice, the second copy
      right after `tag`: the text opens with the opening fragment and the
      title, and closes with the tag, the title and the closing fragment. */
  lemma TitledTwice(open: string, title: string, body: string, tag: string, close: string)
    ensures var r := open + title + (body + tag) + title + close;
            && r[..|open| + |title|] == open + title
            && r[|r| - |tag| - |title| - |close|..] == tag + title + close
  {
    var r := open + title + (body + tag) + title + close;
    assert r == (open + title) + (body + (tag + title + close));
    assert r == (open + title + body) + (tag + title + close);
  }

  /** The head opens `<title>` with the title and ends with the same title
      as the text of `<h1>`, followed by the opening of the list. */
  lemma HtmlHeadTitles(title: string)
    ensures var r := HtmlHead(title);
            && r[..|HeadOpen| + |title|] == HeadOpen + title
            && r[|r| - 4 - |title| - |HeadClose|..] == "<h1>" + title + HeadClose
  {
    TitledTwice(HeadOpen, title, HeadBody, H1Open, HeadClose);
  }

  // ---------------------------------------------------------------------
  // get_bookmarks

  /** The sort key of `get_bookmarks`: `parent_path + title`. */
  function SortKey(b: Bookmark): string
  {
    b.parentPath + b.title
  }

  /** The title a bookmark gets: its own, or "(url)" when it has none. */
  function TitleOf(row: BookmarkRow): string
  {
    match row.title
    case None => "(" + row.url + ")"
    case Some(t) => t
  }

  /** A folder walk: the parent path of a folder id, or why it failed. */
  type Walker = int -> Result<string, FolderPath.Fault>

  /** `get_parent_path(con, id)` over the table, as a walker. */
  function Walk(table: seq<FolderPath.Entry>): Walker
  {
    id => FolderPath.Resolve(table, id, 0)
  }

  /** The `Bookmark` built from one row, or the fault of its folder walk. */
  function MakeBookmark(walk: Walker, row: BookmarkRow): Result<Bookmark, FolderPath.Fault>
  {
    match walk(row.parent)
    case Ok(path) => Ok(Bookmark(TitleOf(row), row.url, path))
    case Err(f) => Err(f)
  }

  /** A row's bookmark keeps the url, takes the row's title or "(url)" when
      the title is missing, and has the folder walk's path for the row's
      parent id; a failing walk is the row's fault. */
  lemma MakeBookmarkFields(table: seq<FolderPath.Entry>, row: BookmarkRow)
    ensures var r := MakeBookmark(Walk(table), row);
            && (r.Ok? <==> FolderPath.Resolve(table, row.parent, 0).Ok?)
            && (r.Ok? ==> && r.value.url == row.url
                          && r.value.title == (if row.title.None? then "(" + row.url + ")" else row.title.value)
                          && Ok(r.value.parentPath) == FolderPath.Resolve(table, row.parent, 0))
            && (r.Err? ==> Err(r.error) == FolderPath.Resolve(table, row.parent, 0))
  {
  }

  /** The list before sorting: one bookmark per row in row order, or the
      fault of the first row whose folder walk fails. */
  function BuildAll(walk: Walker, rows: seq<BookmarkRow>): Result<seq<Bookmark>, FolderPath.Fault>
    decreases |rows|
  {
    if rows == [] then Ok([])
    else
      match BuildAll(walk, rows[..|rows| - 1])
      case Err(f) => Err(f)
      case Ok(bs) =>
        match MakeBookmark(walk, rows[|rows| - 1])
        case Err(f) => Err(f)
        case Ok(b) => Ok(bs + [b])
  }

  /** The list is built exactly when every row's bookmark is. */
  lemma {:induction false} BuildAllSucceeds(walk: Walker, rows: seq<BookmarkRow>)
    ensures BuildAll(walk, rows).Ok? <==> forall i :: 0 <= i < |rows| ==> MakeBookmark(walk, rows[i]).Ok?
    decreases |rows|
  {
    if rows != [] {
      var n := |rows| - 1;
      var init := rows[..n];
      BuildAllSucceeds(walk, init);
      if BuildAll(walk, init).Err? {
        var j :| 0 <= j < n && !MakeBookmark(walk, init[j]).Ok?;
        assert rows[j] == init[j];
      } else if BuildAll(walk, rows).Ok? {
        forall i | 0 <= i < |rows| ensures MakeBookmark(walk, rows[i]).Ok? {
          if i < n {
            assert rows[i] == init[i];
          }
        }
      }
    }
  }

  /** A built list holds one bookmark per row, in row order. */
  lemma {:induction false} BuildAllPerRow(walk: Walker, rows: seq<BookmarkRow>)
    requires BuildAll(walk, rows).Ok?
    ensures |BuildAll(walk, rows).value| == |rows|
    ensures forall i :: 0 <= i < |rows| ==> MakeBookmark(walk, rows[i]) == Ok(BuildAll(walk, rows).value[i])
    decreases |rows|
  {
    if rows != [] {
      var n := |rows| - 1;
      var init := rows[..n];
      BuildAllPerRow(walk, init);
      var prev := BuildAll(walk, init).value;
      var bs := BuildAll(walk, rows).value;
      assert bs == prev + [MakeBookmark(walk, rows[n]).value];
      forall i | 0 <= i < n ensures MakeBookmark(walk, rows[i]) == Ok(bs[i]) {
        assert rows[i] == init[i] && bs[i] == prev[i];
      }
    }
  }

  /** Once a prefix of the rows fails, the whole list fails with the same
      fault. */
  lemma {:induction false} BuildAllFailsEarly(walk: Walker, rows: seq<BookmarkRow>, n: nat)
    requires n <= |rows| && BuildAll(walk, rows[..n]).Err?
    ensures BuildAll(walk, rows) == BuildAll(walk, rows[..n])
    decreases |rows| - n
  {
    if n < |rows| {
      assert rows[..n + 1][..n] == rows[..n];
      BuildAllFailsEarly(walk, rows, n + 1);
    } else {
      assert rows[..n] == rows;
    }
  }

  /** `get_bookmarks(con)`: builds the list row by row, walking the folders
      of each row's parent, then sorts it in place, stably, by
      `parent_path + title`. */
  method GetBookmarks(table: seq<FolderPath.Entry>, rows: seq<BookmarkRow>)
    returns (r: Result<seq<Bookmark>, FolderPath.Fault>)
    ensures r.Err? <==> BuildAll(Walk(table), rows).Err?
    ensures r.Err? ==> r == BuildAll(Walk(table), rows)
    ensures r.Ok? ==> r.value == StableSort.Sort(BuildAll(Walk(table), rows).value, SortKey)
  {
    ghost var walk := Walk(table);
    var bmks: seq<Bookmark> := [];
    for i := 0 to |rows|
      invariant BuildAll(walk, rows[..i]) == Ok(bmks)
    {
      var row := rows[i];
      var title: string;
      if row.title.None? {
        title := "(" + row.url + ")";
      } else {
        title := row.title.value;
      }
      var path, _ := FolderPath.ParentPath(table, row.parent);
      assert path == walk(row.parent);
      assert rows[..i + 1][..i] == rows[..i];
      if path.Err? {
        BuildAllFailsEarly(walk, rows, i + 1);
        return Err(path.error);
      }
      bmks := bmks + [Bookmark(title, row.url, path.value)];
    }
    assert rows[..|rows|] == rows;
    var a := new Bookmark[|bmks|](k requires 0 <= k < |bmks| => bmks[k]);
    assert a[..] == bmks;
    StableSort.SortInPlace(a, SortKey);
    r := Ok(a[..]);
  }

  /** The list `get_bookmarks` returns is in non-decreasing order of
      `parent_path + title`, holds exactly the built bookmarks, and keeps
      bookmarks with equal keys in row order. */
  lemma GetBookmarksOrder(table: seq<FolderPath.Entry>, rows: seq<BookmarkRow>, k: string)
    requires BuildAll(Walk(table), rows).Ok?
    ensures var built := BuildAll(Walk(table), rows).value;
            var sorted := StableSort.Sort(built, SortKey);
            && StableSort.Sorted(sorted, SortKey)
            && multiset(sorted) == multiset(built)
            && StableSort.WithKey(sorted, SortKey, k) == StableSort.WithKey(built, SortKey, k)
  {
    var built := BuildAll(Walk(table), rows).value;
    StableSort.SortSorted(built, SortKey);
    StableSort.SortPermutation(built, SortKey);
    StableSort.SortStable(built, SortKey, k);
  }

  // ---------------------------------------------------------------------
  // write_github_links_html

  const GithubPrefix: string := "https://github.com/"

  // The GitHub item's own lines around the path and the title.
  const PathOpen: string := "    <p><span class=\"bookmark-path\">"
  const TitleOpen: string := "    <span class=\"bookmark-title\">"
  const SpanClose: string := "</span><br />"

  /** The lines of the GitHub item between `<li>` and `</li>`, after
      `dedent` and `format`. */
  function GithubLines(path: string, title: string, url: string): seq<string>
  {
    [ PathOpen + path + SpanClose,
      TitleOpen + title + SpanClose,
      HtmlItem.LinkLine(url) ]
  }

  /** The `<li>` block written for one bookmark: the template filled with
      the path, `limited(ascii(title))` and the url twice, then indented. */
  function GithubItem(b: Bookmark, ascii: string -> string): string
  {
    HtmlItem.Item(GithubLines(b.parentPath, Truncate.Limited(ascii(b.title)), b.url))
  }

  /** The span fragments hold no line break. */
  lemma SpanFragments()
    ensures HtmlItem.Flat(PathOpen) && HtmlItem.Flat(TitleOpen) && TextWrap.NoLineBreak(SpanClose)
  {
    PathOpenFlat();
    TitleOpenFlat();
    assert TextWrap.NoLineBreak(SpanClose) by { HtmlItem.Printable(SpanClose, 0); }
  }

  /** The opening of the path line has visible text and no line break. */
  lemma PathOpenFlat()
    ensures HtmlItem.Flat(PathOpen)
  {
    HtmlItem.Printable(PathOpen, 4);
  }

  /** The opening of the title line has visible text and no line break. */
  lemma TitleOpenFlat()
    ensures HtmlItem.Flat(TitleOpen)
  {
    HtmlItem.Printable(TitleOpen, 4);
  }

  /** When the inserted texts hold no line break, every template line gets
      exactly the eight-space prefix and the blank first line stays blank,
      so the block carries the parent path and url unchanged (the url
      twice) and the title cut to at most 180 characters. */
  lemma GithubItemText(b: Bookmark, ascii: string -> string)
    requires TextWrap.NoLineBreak(b.parentPath) && TextWrap.NoLineBreak(b.url)
    requires TextWrap.NoLineBreak(Truncate.Limited(ascii(b.title)))
    ensures GithubItem(b, ascii)
            == "\n" + TextWrap.PrefixedLines(HtmlItem.Pad,
                 [HtmlItem.ItemOpen] + GithubLines(b.parentPath, Truncate.Limited(ascii(b.title)), b.url) + [HtmlItem.ItemClose])
  {
    var title := Truncate.Limited(ascii(b.title));
    SpanFragments();
    HtmlItem.Filled(PathOpen, b.parentPath, SpanClose);
    HtmlItem.Filled(TitleOpen, title, SpanClose);
    HtmlItem.LinkLineFlat(b.url);
    HtmlItem.ItemText(GithubLines(b.parentPath, title, b.url));
  }

  /** The bookmarks whose url starts with "https://github.com/", in order. */
  function GithubOnly(bs: seq<Bookmark>): seq<Bookmark>
    decreases |bs|
  {
    if bs == [] then []
    else GithubOnly(bs[..|bs| - 1])
         + (if PyStr.StartsWith(bs[|bs| - 1].url, GithubPrefix) then [bs[|bs| - 1]] else [])
  }

  /** A bookmark is kept exactly when it is in the list and its url starts
      with the GitHub prefix. */
  lemma {:induction false} GithubOnlyMembers(bs: seq<Bookmark>, b: Bookmark)
    ensures b in GithubOnly(bs) <==> b in bs && PyStr.StartsWith(b.url, GithubPrefix)
    decreases |bs|
  {
    if bs != [] {
      GithubOnlyMembers(bs[..|bs| - 1], b);
      assert bs == bs[..|bs| - 1] + [bs[|bs| - 1]];
    }
  }

  /** Filtering keeps the list order: the kept part of a concatenation is
      the kept part of the first list followed by that of the second. */
  lemma {:induction false} GithubOnlyAppend(xs: seq<Bookmark>, ys: seq<Bookmark>)
    ensures GithubOnly(xs + ys) == GithubOnly(xs) + GithubOnly(ys)
    decreases |ys|
  {
    if ys == [] {
      assert xs + ys == xs;
    } else {
      GithubOnlyAppend(xs, ys[..|ys| - 1]);
      assert (xs + ys)[..|xs + ys| - 1] == xs + ys[..|ys| - 1];
    }
  }

  /** The items written for a list of bookmarks, one per bookmark, in
      order. */
  function GithubItems(bs: seq<Bookmark>, ascii: string -> string): (r: seq<string>)
    ensures |r| == |bs|
    ensures forall j :: 0 <= j < |bs| ==> r[j] == GithubItem(bs[j], ascii)
    decreases |bs|
  {
    if bs == [] then []
    else GithubItems(bs[..|bs| - 1], ascii) + [GithubItem(bs[|bs| - 1], ascii)]
  }

  const GithubPageTitle: string := "Bookmarks/GitHub"

  /** `write_github_links_html(args, con)`: the page head, one item per
      bookmark whose url starts with "https://github.com/" (in the order of
      the sorted list), and the page tail. A failing folder walk stops the
      report before anything is written. */
  method WriteGithubLinksHtml(table: seq<FolderPath.Entry>, rows: seq<BookmarkRow>, ascii: string -> string)
    returns (r: Result<seq<string>, FolderPath.Fault>)
    ensures r.Err? <==> BuildAll(Walk(table), rows).Err?
    ensures r.Ok? ==>
              r.value == [HtmlHead(GithubPageTitle)]
                         + GithubItems(GithubOnly(StableSort.Sort(BuildAll(Walk(table), rows).value, SortKey)), ascii)
                         + [HtmlTail()]
  {
    var bmks := GetBookmarks(table, rows);
    if bmks.Err? {
      return Err(bmks.error);
    }
    var items := WriteGithubItems(bmks.value, ascii);
    r := Ok([HtmlHead(GithubPageTitle)] + items + [HtmlTail()]);
  }

  /** The loop of `write_github_links_html`: the block of every bookmark
      whose url starts with "https://github.com/", in order. */
  method WriteGithubItems(bs: seq<Bookmark>, ascii: string -> string) returns (items: seq<string>)
    ensures items == GithubItems(GithubOnly(bs), ascii)
  {
    items := [];
    for i := 0 to |bs|
      invariant items == GithubItems(GithubOnly(bs[..i]), ascii)
    {
      var bmk := bs[i];
      assert bs[..i + 1][..i] == bs[..i];
      if PyStr.StartsWith(bmk.url, GithubPrefix) {
        items := items + [GithubItem(bmk, ascii)];
        assert (GithubOnly(bs[..i]) + [bmk])[..|GithubOnly(bs[..i])|] == GithubOnly(bs[..i]);
      } else {
        assert GithubOnly(bs[..i + 1]) == GithubOnly(bs[..i]) + [];
      }
    }
    assert bs[..|bs|] == bs;
  }

}
