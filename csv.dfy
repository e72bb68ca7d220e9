/** The CSV line shape shared by the report writers: every field wrapped in
    double quotes, fields separated by commas, the line ended by "\n". The
    writers do not double embedded quotes, so a field is recoverable from the
    line only when it holds no double quote; `ParseRecord` reads such a line
    back and `RecordRoundTrip` says when that gives the fields again. */
module Csv {
  import opened Wrappers

  /** What stands between two quoted fields. */
  const Separator: string := "\",\""

  function Join(fields: seq<string>): string
    requires fields != []
    decreases |fields|
  {
    if |fields| == 1 then fields[0] else fields[0] + Separator + Join(fields[1..])
  }

  /** A full line: `"f1","f2",...,"fn"` followed by "\n". */
  function Record(fields: seq<string>): string
    requires fields != []
  {
    "\"" + Join(fields) + "\"\n"
  }

  /** The position of the first `c` in `s`, if any. */
  function IndexOf(s: string, c: char): (r: Option<nat>)
    ensures r.Some? ==> r.value < |s| && s[r.value] == c && c !in s[..r.value]
    ensures r.None? ==> c !in s
    decreases |s|
  {
    if s == [] then None
    else if s[0] == c then Some(0)
    else
      match IndexOf(s[1..], c)
      case None => None
      case Some(i) => assert s[..i + 1] == [s[0]] + s[1..][..i]; Some(i + 1)
  }

  /** Splits the text between the outer quotes at each `","`. */
  function SplitFields(s: string): Option<seq<string>>
    decreases |s|
  {
    match IndexOf(s, '"')
    case None => Some([s])
    case Some(i) =>
      if i + |Separator| <= |s| && s[i..i + |Separator|] == Separator then
        match SplitFields(s[i + |Separator|..])
        case None => None
        case Some(rest) => Some([s[..i]] + rest)
      else None
  }

  /** Reads one line written by `Record` back into its fields. */
  function ParseRecord(line: string): Option<seq<string>>
  {
    if |line| >= 3 && line[0] == '"' && line[|line| - 2..] == "\"\n" then
      SplitFields(line[1..|line| - 2])
    else None
  }

  predicate QuoteFree(fields: seq<string>)
  {
    forall k :: 0 <= k < |fields| ==> '"' !in fields[k]
  }

  lemma {:induction false} SplitJoin(fields: seq<string>)
    requires fields != [] && QuoteFree(fields)
    ensures SplitFields(Join(fields)) == Some(fields)
    decreases |fields|
  {
    var s := Join(fields);
    var f := fields[0];
    assert '"' !in f;
    if |fields| == 1 {
      assert s == f;
      assert IndexOf(s, '"').None?;
      assert [s] == fields;
    } else {
      var rest := Join(fields[1..]);
      assert s == f + Separator + rest;
      assert s[|f|] == '"' && s[..|f|] == f;
      assert IndexOf(s, '"') == Some(|f|);
      assert s[|f|..|f| + |Separator|] == Separator;
      assert s[|f| + |Separator|..] == rest;
      SplitJoin(fields[1..]);
      assert [f] + fields[1..] == fields;
    }
  }

  /** A line whose fields hold no double quote parses back to exactly those
      fields. */
  lemma RecordRoundTrip(fields: seq<string>)
    requires fields != [] && QuoteFree(fields)
    ensures ParseRecord(Record(fields)) == Some(fields)
  {
    var line := Record(fields);
    assert line[1..|line| - 2] == Join(fields);
    SplitJoin(fields);
  }
}
