# Firefox places export, modelled in Dafny

Two Python scripts read a Firefox `places.sqlite` database and write
reports about it. `export-from-places.py` writes a history CSV, a bookmark
CSV, a bookmark HTML page, a frecency CSV, a "top 100" frecency HTML page
and, optionally, a page of GitHub links. `export_firefox_data.py` writes the
same files. Its GitHub page is built differently: the script resolves each
bookmark's full folder path by walking the `moz_bookmarks` parent pointers
(`get_parent_path`). It then sorts the bookmarks by `parent_path + title`
(`get_bookmarks`) and keeps only the urls that start with
`https://github.com/`.

The model covers everything between the database rows and the text written
to the files:

- `wrappers.dfy` defines `Option` and `Result`.
- `pystr.dfy` models the Python `str` behaviour the scripts rely on:
  - `str(None)` is `"None"`;
  - `str(int)` gives decimal digits, and a parser reads them back;
  - `replace` of one character, reversal with `[::-1]`, and `startswith`;
  - the `<` order on strings, proved a strict total order.
- `textwrap.dfy` models `textwrap.indent` with its default predicate. Lines
  end where `str.splitlines(True)` ends them, and only lines with a
  non-`isspace` character get the prefix.
- `truncate.dfy` models `limited`, which both scripts define identically.
- `csv.dfy` models the quoted CSV line shape. It also holds a parser used
  only to state what a line preserves.
- `folder_path.dfy` models `get_parent_path`. `Resolve` and `Lineage` are
  recursive definitions of the walk, and `ParentPath` is the source's
  `while` loop proved equal to them. The two `assert` statements of the
  source become `Fault` values of a `Result`.
- `stable_sort.dfy` models `list.sort(key=...)` as an in-place insertion
  sort on an array. It is proved equal to a functional specification. That
  specification gives a sorted, stable permutation, and no other list is
  one, so it agrees with Python's sort.
- `html_item.dfy` holds the `<li>` template the HTML pages share. Every
  item is dedented, formatted and passed through `indent(s, " " * 8)`.
- `firefox_export.dfy` holds `html_head`/`html_tail`/`html_style`,
  `get_bookmarks` and `write_github_links_html` of `export_firefox_data.py`.
- `places_export.dfy` holds the row formatters and the writers of
  `export-from-places.py`:
  - The history, bookmark and frecency writers of `export_firefox_data.py`
    (lines 76-231 and 366-398) are the same code. They are modelled once.
  - A `Frame` value selects which script's HTML head and tail a page gets.

Each writer takes the rows its SQL query returns and returns what it
writes, one string per `write` call.

## Model

| member | source | states |
|---|---|---|
| `Truncate.Limited` | export-from-places.py:16-21 | The result has at most 180 characters. A text of at most 180 characters comes back unchanged. A longer text keeps its first 177 characters, followed by "...". |
| `Truncate.LimitedIdempotent` | export_firefox_data.py:19-24 | Limiting twice is the same as limiting once. |
| `Truncate.LimitedKeepsOut` | export_firefox_data.py:19-24 | A character other than '.' that is absent from the input is absent from the limited text. |
| `PyStr.Digits` | export-from-places.py:96-104 | The decimal digits of a natural number are non-empty, all digits, and have no leading zero. |
| `PyStr.StrOf` | export-from-places.py:131 | `str(v)` of a column that may be NULL: the text itself, or "None" for NULL. `PlacesExport.BookmarkCsvReadBack` shows both values reach the file unchanged. |
| `PyStr.Decimal` | export-from-places.py:96-104 | `str(n)` of an integer: a '-' for a negative number, then the digits of its magnitude. `PyStr.DecimalRoundTrip` proves it reads back as `n`, and `PyStr.DecimalCharacters` that it holds only digits and '-'. |
| `PyStr.DigitsRoundTrip` | export-from-places.py:96-104 | Reading the digits of `n` back gives `n`. |
| `PyStr.DecimalRoundTrip` | export-from-places.py:96-104 | `str(n)` of any integer, negative or not, parses back to `n`. |
| `PyStr.DecimalCharacters` | export-from-places.py:96-104 | `str(n)` holds only digits and '-'. |
| `PyStr.ReplaceChar` | export-from-places.py:82 | `replace` of one character keeps the length, swaps each occurrence and nothing else, and leaves no occurrence behind. |
| `PyStr.Reverse` | export-from-places.py:85 | `s[::-1]` has the same length, and position `i` holds `s[len-1-i]`. |
| `PyStr.ReverseInvolution` | export-from-places.py:85 | Reversing twice gives the original back, so `rev_host` can be recovered from the host column. |
| `PyStr.StartsWith` | export_firefox_data.py:351 | `s.startswith(p)`: `p` is no longer than `s` and equals its first characters. `FirefoxExport.GithubOnlyMembers` uses it to state which bookmarks are listed. |
| `PyStr.Less` | export_firefox_data.py:286 | `a < b` on `str`: the first differing character decides, and a proper prefix sorts first. `PyStr.LessIrreflexive`, `PyStr.LessTransitive` and `PyStr.LessTotal` prove it a strict total order. |
| `PyStr.LessIrreflexive` | export_firefox_data.py:286 | No string sorts before itself. |
| `PyStr.LessTransitive` | export_firefox_data.py:286 | The string order used for sort keys is transitive. |
| `PyStr.LessTotal` | export_firefox_data.py:286 | Any two different strings are ordered one way or the other. |
| `TextWrap.FirstLineLength` | export-from-places.py:171 | The first line ends at its first line break, and "\r\n" counts as one break. |
| `TextWrap.Indent` | export-from-places.py:171 | `textwrap.indent(s, prefix)`: each line, split as `splitlines(True)` splits, gets the prefix exactly when it holds a non-space character. `TextWrap.IndentLine`, `TextWrap.IndentAppend` and `TextWrap.IndentLines` state what this gives for one line, two texts, and a list of lines. |
| `TextWrap.FirstLineOfPrefix` | export-from-places.py:171 | The first line of a text ending in "\n" lies inside that text. |
| `TextWrap.IndentAppend` | export-from-places.py:171 | Indenting two texts, the first ending in "\n", is the same as indenting their concatenation. |
| `TextWrap.IndentLine` | export-from-places.py:171 | A single line without inner breaks gets the prefix exactly when it has visible text. |
| `TextWrap.FilledLine` | export-from-places.py:162-171 | A template line filled with a field without line breaks stays one line with visible text. |
| `TextWrap.IndentLines` | export-from-places.py:171 | Lines that have visible text and no inner break each get the prefix exactly once. |
| `TextWrap.IndentAfterBlankLine` | export-from-places.py:162-171 | A leading blank line stays unprefixed, and the lines after it are prefixed. |
| `Csv.SplitJoin` | export-from-places.py:95-105 | Splitting fields joined by `","` gives them back when none holds a double quote. |
| `Csv.Record` | export-from-places.py:95-105 | The `'"{0}","{1}",...\n'` line: each field inside double quotes, separated by commas, ended by "\n". `Csv.RecordRoundTrip` proves the fields read back when none holds a double quote. |
| `Csv.RecordRoundTrip` | export-from-places.py:95-105 | A `"f1","f2",...` line whose fields hold no double quote reads back to exactly its fields. |
| `FolderPath.Lookup` | export_firefox_data.py:247-252 | The folder query returns only rows with the requested id. |
| `FolderPath.LookupExact` | export_firefox_data.py:247-252 | A row is returned exactly when it is in the table and has the requested id. |
| `FolderPath.Resolve` | export_firefox_data.py:234-259 | A non-positive id gives "/". A path starts and ends with "/". A row-count fault names a positive id whose lookup did not return exactly one row. |
| `FolderPath.ResolveFollowsLineage` | export_firefox_data.py:240-257 | The path is "/" followed by the titles of the chain's folders whose parent id is positive (every folder but the last), root side first, each followed by "/"; it fails exactly when the chain lookup fails. |
| `FolderPath.LineageSound` | export_firefox_data.py:240-257 | The found chain links each folder to its parent, uses only unique rows, ends at a non-positive parent, and respects the hop bound. |
| `FolderPath.LineageComplete` | export_firefox_data.py:240-257 | Any chain with those properties is the one found. |
| `FolderPath.LineageBounded` | export_firefox_data.py:244-245 | A successful walk makes fewer than 99 hops. |
| `FolderPath.CycleFails` | export_firefox_data.py:241-245 | Parent pointers that never reach the root (a cycle) end in the hop-bound fault, never an endless loop. |
| `FolderPath.WalkStep` | export_firefox_data.py:255-257 | Helper for `FolderPath.Resolve`: one loop step extends the path by the folder title plus "/" exactly when the parent id is positive. |
| `FolderPath.LoopStep` | export_firefox_data.py:244-257 | One pass of the loop, on a folder with exactly one row, keeps the path built so far and the folders seen consistent with the whole walk. |
| `FolderPath.ParentPath` | export_firefox_data.py:234-259 | The loop returns the recursive walk's result, with one lookup per chain folder and fewer than 99 lookups. |
| `StableSort.InsertMultiset` | export_firefox_data.py:286 | Inserting adds exactly one element. |
| `StableSort.InsertSorted` | export_firefox_data.py:286 | Inserting into a sorted list keeps it sorted. |
| `StableSort.InsertWithKey` | export_firefox_data.py:286 | The inserted element joins the end of its key's elements, and the elements of every other key are unchanged. |
| `StableSort.Sort` | export_firefox_data.py:286 | `list.sort(key=...)`, as insertion of each element after the elements of equal or smaller key. `StableSort.SortSorted`, `StableSort.SortPermutation` and `StableSort.SortStable` prove the result sorted, a permutation and stable, and `StableSort.SortUnique` that no other stable sort differs. |
| `StableSort.SortSorted` | export_firefox_data.py:286 | The sorted list is in non-decreasing key order. |
| `StableSort.SortPermutation` | export_firefox_data.py:286 | The sorted list is a permutation of the input. |
| `StableSort.SortStable` | export_firefox_data.py:286 | For every key, the elements with that key keep their input order. |
| `StableSort.SortedEqual` | export_firefox_data.py:286 | Two sorted lists with the same elements per key, in the same order, are equal. |
| `StableSort.SortUnique` | export_firefox_data.py:286 | Any sorted list that keeps the per-key order of the input equals the specification's result, so every stable sort agrees with it. |
| `StableSort.InsertInPlace` | export_firefox_data.py:286 | Shifting in place puts `a[i]` into the sorted prefix, as the specification's insert does, and leaves the rest alone. |
| `StableSort.SortInPlace` | export_firefox_data.py:286 | The array ends as the specification's sort of its old contents. |
| `FirefoxExport.HtmlStyle` | export_firefox_data.py:27-42 | `html_style()`: the CSS block with its leading newline and trailing spaces stripped. It is the text that `FirefoxExport.HtmlHead` places inside `<style>`. |
| `FirefoxExport.HtmlHead` | export_firefox_data.py:45-61 | `html_head(title)`: the dedented head template with the title filled in twice and the style inside `<style>`. `FirefoxExport.HtmlHeadTitles` proves where the title appears. |
| `FirefoxExport.HtmlTail` | export_firefox_data.py:64-73 | `html_tail()`: closes the list, adds a blank paragraph and a rule, and closes the document. `FirefoxExport.WriteGithubLinksHtml` writes it last. |
| `FirefoxExport.HtmlHeadTitles` | export_firefox_data.py:45-61 | The head's opening text, which ends in `<title>`, is followed by the title; the head ends with `<h1>`, the same title, `</h1>` and the opening `<ul>`. |
| `FirefoxExport.MakeBookmark` | export_firefox_data.py:280-285 | One row's bookmark: its title or "(url)", its url, and the folder walk's path for its parent, or the walk's fault. `FirefoxExport.MakeBookmarkFields` states the fields. |
| `FirefoxExport.BuildAll` | export_firefox_data.py:278-285 | The loop that appends one bookmark per row, stopped by the first failing walk. `FirefoxExport.BuildAllSucceeds`, `FirefoxExport.BuildAllPerRow` and `FirefoxExport.BuildAllFailsEarly` state when it succeeds and what it holds. |
| `FirefoxExport.MakeBookmarkFields` | export_firefox_data.py:280-285 | A bookmark keeps its url, takes "(url)" as title when it has none, and gets the folder walk's path for its parent. |
| `FirefoxExport.BuildAllSucceeds` | export_firefox_data.py:278-285 | The list is built exactly when the bookmark of every row is built, that is, when every row's folder walk succeeds. |
| `FirefoxExport.BuildAllPerRow` | export_firefox_data.py:278-285 | A built list holds one bookmark per row, in row order: entry `i` is the bookmark made from row `i`. |
| `FirefoxExport.BuildAllFailsEarly` | export_firefox_data.py:278-285 | The first failing row's fault is the result's fault. |
| `FirefoxExport.GetBookmarks` | export_firefox_data.py:262-287 | The method fails exactly when a walk fails. Otherwise it returns the built list stably sorted by `parent_path + title`. |
| `FirefoxExport.GetBookmarksOrder` | export_firefox_data.py:286 | The returned list is sorted, is a permutation of the built list, and keeps the row order of bookmarks with equal keys. |
| `FirefoxExport.GithubItem` | export_firefox_data.py:352-362 | One GitHub link: the span template filled with the path, the limited `ascii` title and the url, then indented by 8 spaces. `FirefoxExport.GithubItemText` proves its lines. |
| `FirefoxExport.GithubOnly` | export_firefox_data.py:350-351 | The bookmarks whose url starts with `https://github.com/`, in list order. `FirefoxExport.GithubOnlyMembers` and `FirefoxExport.GithubOnlyAppend` prove which are kept and that order is kept. |
| `FirefoxExport.GithubItemText` | export_firefox_data.py:352-362 | The item is a blank line followed by the template lines, each with the 8-space prefix. It carries the path, the limited `ascii` title and the url twice. This holds when the inserted fields hold no line break. |
| `FirefoxExport.GithubOnlyMembers` | export_firefox_data.py:350-351 | A bookmark is listed exactly when its url starts with `https://github.com/`. |
| `FirefoxExport.GithubOnlyAppend` | export_firefox_data.py:350-351 | Filtering keeps the list order. |
| `FirefoxExport.GithubItems` | export_firefox_data.py:350-362 | There is one item per listed bookmark, in order. |
| `FirefoxExport.WriteGithubItems` | export_firefox_data.py:350-362 | The loop writes the item of every bookmark whose url starts with `https://github.com/`, in list order, and no other. |
| `FirefoxExport.WriteGithubLinksHtml` | export_firefox_data.py:341-363 | The page is the head, then one item per GitHub bookmark of the sorted list, then the tail. A failed walk writes nothing. |
| `HtmlItem.Printable` | export-from-places.py:162-170 | Helper for the literal facts: template text in printable ASCII holds no line break. |
| `HtmlItem.Item` | export-from-places.py:162-171 | One list item as both scripts write it: a blank line, `<li>`, the filled template lines and `</li>`, passed through `indent` with 8 spaces. `HtmlItem.ItemText` proves the result when every line is one visible line. |
| `HtmlItem.LinkLineFlat` | export-from-places.py:167 | The link line with a url that has no line breaks is one indentable line. |
| `HtmlItem.ItemText` | export-from-places.py:162-171 | An item whose lines are each one visible line is written as a blank line plus those lines, each with the 8-space prefix. |
| `PlacesExport.HtmlHead` | export-from-places.py:24-38 | `html_head(title)`: the dedented head template with the title filled in twice and a link to `style.css`. `PlacesExport.HtmlHeadTitles` proves where the title appears. |
| `PlacesExport.HtmlTail` | export-from-places.py:41-48 | `html_tail()`: closes the list and the document. The page writers write it last. |
| `PlacesExport.HtmlHeadTitles` | export-from-places.py:24-38 | The head's opening text, which ends in `<title>`, is followed by the title; the head ends with `<h1>`, the same title, `</h1>` and the opening `<ul>`. |
| `PlacesExport.HistoryTitle` | export-from-places.py:82 | The title field never holds a double quote and has at most 180 characters. A short title keeps every character, with '"' turned into "'". |
| `PlacesExport.ReverseQuoteFree` | export-from-places.py:85 | Reversing a host that holds no double quote adds none. |
| `PlacesExport.DecimalQuoteFree` | export-from-places.py:96-104 | The count and frecency columns hold no double quote. |
| `PlacesExport.HistoryLine` | export-from-places.py:95-105 | One history line: the six fields, url to visit date, as one quoted CSV record. `PlacesExport.HistoryLineReadBack` proves it reads back into those fields. |
| `PlacesExport.HistoryLineReadBack` | export-from-places.py:79-105 | A history line reads back into six fields: the limited url, the title field, the reversed `rev_host`, the visit count, the frecency and the date. |
| `PlacesExport.BookmarkCsvLine` | export-from-places.py:130-131 | One bookmark line: `str` of the parent title, `str` of the title and the url, as one quoted CSV record. `PlacesExport.BookmarkCsvReadBack` proves it reads back. |
| `PlacesExport.BookmarkCsvReadBack` | export-from-places.py:128-132 | A bookmark line reads back into `str` of the parent title, `str` of the title, and the url. |
| `PlacesExport.FrecencyCsvLine` | export-from-places.py:196-199 | One frecency line: the limited url, the limited title and the frecency, as one quoted CSV record. `PlacesExport.FrecencyCsvReadBack` proves it reads back. |
| `PlacesExport.FrecencyCsvReadBack` | export-from-places.py:194-200 | A frecency line reads back into the limited url, the limited title and the frecency. |
| `PlacesExport.BookmarkItem` | export-from-places.py:158-171 | One bookmark item: the template filled with the limited parent title, the limited `ascii` title and the url, indented by 8 spaces. `PlacesExport.BookmarkItemText` proves its lines. |
| `PlacesExport.BookmarkItemText` | export-from-places.py:158-171 | The bookmark item is a blank line, then `<li>`, the limited parent title, the bold limited `ascii` title, the link and `</li>`, each with the 8-space prefix, when the inserted fields hold no line break. |
| `PlacesExport.FrecencyItem` | export-from-places.py:266-275 | One frecency item: the template filled with the url and the unlimited title, indented by 8 spaces. `PlacesExport.FrecencyItemText` proves its lines. |
| `PlacesExport.FrecencyItemText` | export-from-places.py:266-275 | The frecency item is a blank line, then `<li>`, the unlimited title, the link and `</li>`, each with the 8-space prefix, when the inserted fields hold no line break. |
| `PlacesExport.WriteHistoryCsv` | export-from-places.py:51-105 | The file is the header, then one history line per row, in row order. |
| `PlacesExport.WriteBookmarksCsv` | export-from-places.py:108-132 | The file is the header, then one bookmark line per row, in row order. |
| `PlacesExport.WriteFrecencyCsv` | export-from-places.py:175-200 | The file is the header, then one frecency line per row, in row order. |
| `PlacesExport.WritePage` | export-from-places.py:157-172 | A page is the head, then the block of each row in row order, then the tail. |
| `PlacesExport.WriteBookmarksHtml` | export-from-places.py:135-172 | The page is the head titled "Bookmarks", in either script's frame, then one bookmark item per row, then the tail. |
| `PlacesExport.WriteGithubLinksHtml` | export-from-places.py:203-242 | The page is the head titled "Bookmarks/GitHub", in this script's frame, then one bookmark item per row, then the tail. |
| `PlacesExport.WriteFrecencyHtml` | export-from-places.py:245-276 | The page is the head titled "Top 100 Recent/Frequent  Links", then one frecency item per row, then the tail. |

## Left out

- The SQL queries are not modelled. This covers joins, `ORDER BY`, `DISTINCT`, `LIMIT 100` and the `LIKE 'https://github.com/%'` filter of export-from-places.py. Each writer takes the rows as the query returns them, in that order. (SQLite's `LIKE` ignores ASCII case, unlike the `startswith` test of export_firefox_data.py.)
- The folder lookup is modelled as a filter over a sequence of `moz_bookmarks` rows, in table order.
- File and console I/O is not modelled: `open`, `print`, the output directory, the file names built from `--output-prefix`, `argparse`, `main` and the check that the database file exists. Writers return their `write` calls as a sequence of strings.
- `ascii()` and `datetime.fromtimestamp(visit_date / 1000000)` are passed in as function parameters. Reproducing Python's escaping rules and the local-time calendar is out of scope.
- `url`, `rev_host`, `visit_count`, `frecency` and the `parent` columns (of `FolderPath.Entry` and of the bookmark rows) are assumed non-NULL; Firefox gives these columns values. A NULL there makes the Python code raise (`[::-1]` on `None`, or the `0 < parent_id` comparison in `get_parent_path`) or write "None" (`visit_count` in the history CSV). Titles are nullable and are modelled as `Option`.
- `FirefoxExport.GithubItemText`, `PlacesExport.BookmarkItemText`, `PlacesExport.FrecencyItemText`: these state the item line by line only when the path, parent title, titles and url hold no line break. A field with a line break is split by `textwrap.indent` across two prefixed lines. `HtmlItem.Item` computes that case too, but no lemma describes its lines.
- The two `assert` statements of `get_parent_path` are modelled as `Fault` results, as the default interpreter runs them. Under `python -O` they are skipped: a cycle then loops without end, and a missing row raises `IndexError`. That behaviour is not modelled.
- The CSV writers do not escape double quotes in `str(title)`, the url or the parent title. The read-back lemmas hold only for fields without double quotes. The lines themselves are modelled for every input.
- check_html_output.py, a separate checking script, is not part of this model.
- The commented-out `write_github_links_html` in export_firefox_data.py (lines 290-338) is not part of this model.
- The source does not memoise parent paths, does not escape HTML and does not skip non-HTTP urls; the model does the same.
- The pages have no element with id `footer`, although check_html_output.py:18-19 expects exactly one. The model writes the pages as the source does.
- Python's sort is represented by an insertion sort. `StableSort.SortUnique` shows that any stable sort on the same keys gives the same list.
- Integer widths are not modelled. SQLite integers are unbounded here, which does not affect the text written.
