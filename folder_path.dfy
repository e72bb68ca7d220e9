/** `get_parent_path` (export_firefox_data.py): the folder path of a bookmark,
    found by walking the parent pointers of the `moz_bookmarks` table from the
    bookmark's parent folder up to the root.

    The walk is modelled twice: `Resolve` and `Lineage` are recursive
    definitions of what it computes, and the method `ParentPath` is the loop
    of the source, proved to agree with them. The table is a sequence of
    rows, and the folder query `SELECT parent, title FROM moz_bookmarks
    WHERE id = ...` is `Lookup`, so a lookup that finds no row or several
    rows can be expressed. The two `assert` statements of the source become
    the two `Fault`s of a `Result`. */
module FolderPath {
  import opened Wrappers
  import PyStr

  /** One row of `moz_bookmarks` as the folder query sees it. */
  datatype Entry = Entry(id: int, parent: int, title: Option<string>)

  /** Why the walk gives up: the hop counter reached its bound, or a
      lookup did not find exactly one row for `id`. */
  datatype Fault = TooDeep | RowCount(id: int, count: nat)

  /** The hop counter must stay below this value. */
  const MaxDepth: nat := 99

  /** The rows of `table` whose id is `id`, in table order. */
  function Lookup(table: seq<Entry>, id: int): (rows: seq<Entry>)
    ensures forall k :: 0 <= k < |rows| ==> rows[k].id == id
    decreases |table|
  {
    if table == [] then []
    else
      (if table[0].id == id then [table[0]] else []) + Lookup(table[1..], id)
  }

  /** Every row of the table with the given id is found, and only rows of
      the table are. */
  lemma {:induction false} LookupExact(table: seq<Entry>, id: int, e: Entry)
    ensures e in Lookup(table, id) <==> e in table && e.id == id
    decreases |table|
  {
    if table != [] {
      LookupExact(table[1..], id, e);
      assert table == [table[0]] + table[1..];
    }
  }

  /** A walk result with `tail` appended to the path. */
  function Extend(r: Result<string, Fault>, tail: string): Result<string, Fault>
  {
    match r
    case Ok(p) => Ok(p + tail)
    case Err(f) => Err(f)
  }

  /** The path of folder `id`, the walk having already made `depth` hops:
      "/" when `id` is not positive, otherwise the path of its parent with
      its own title and "/" added, except that a folder whose parent is not
      positive adds nothing. */
  function Resolve(table: seq<Entry>, id: int, depth: nat): (r: Result<string, Fault>)
    ensures id <= 0 ==> r == Ok("/")
    ensures r.Ok? ==> |r.value| >= 1 && r.value[0] == '/' && r.value[|r.value| - 1] == '/'
    ensures r.Err? && r.error.RowCount? ==>
              r.error.id > 0 && r.error.count == |Lookup(table, r.error.id)| && r.error.count != 1
    decreases MaxDepth - depth
  {
    if id <= 0 then Ok("/")
    else if depth + 1 >= MaxDepth then Err(TooDeep)
    else
      var rows := Lookup(table, id);
      if |rows| != 1 then Err(RowCount(id, |rows|))
      else if rows[0].parent <= 0 then Ok("/")
      else Extend(Resolve(table, rows[0].parent, depth + 1), PyStr.StrOf(rows[0].title) + "/")
  }

  /** The rows the walk looks up, starting folder first, or the fault that
      stops it. */
  function Lineage(table: seq<Entry>, id: int, depth: nat): Result<seq<Entry>, Fault>
    decreases MaxDepth - depth
  {
    if id <= 0 then Ok([])
    else if depth + 1 >= MaxDepth then Err(TooDeep)
    else
      var rows := Lookup(table, id);
      if |rows| != 1 then Err(RowCount(id, |rows|))
      else if rows[0].parent <= 0 then Ok([rows[0]])
      else
        match Lineage(table, rows[0].parent, depth + 1)
        case Ok(above) => Ok([rows[0]] + above)
        case Err(f) => Err(f)
  }

  /** The path spelled by a chain of folders (starting folder first): "/",
      then the titles of the folders whose parent is positive, root side
      first, each followed by "/". */
  function PathOf(chain: seq<Entry>): string
    decreases |chain|
  {
    if chain == [] then "/"
    else if chain[0].parent > 0 then PathOf(chain[1..]) + (PyStr.StrOf(chain[0].title) + "/")
    else PathOf(chain[1..])
  }

  /** `chain` is a well-formed walk from `id` that starts after `depth` hops:
      each folder is the one row its id finds, each next folder is the
      parent of the one before, every parent but the last is positive, the
      last is not, and the hop bound is respected. */
  ghost predicate IsLineage(table: seq<Entry>, id: int, depth: nat, chain: seq<Entry>)
  {
    if id <= 0 then chain == []
    else
      && 1 <= |chain|
      && depth + |chain| < MaxDepth
      && chain[0].id == id
      && (forall k :: 0 <= k < |chain| ==> Lookup(table, chain[k].id) == [chain[k]])
      && (forall k :: 0 <= k < |chain| - 1 ==> chain[k].parent > 0 && chain[k + 1].id == chain[k].parent)
      && chain[|chain| - 1].parent <= 0
  }

  /** The path `Resolve` gives is the path spelled by the chain `Lineage`
      finds, and the two fail alike. */
  lemma {:induction false} ResolveFollowsLineage(table: seq<Entry>, id: int, depth: nat)
    ensures match Lineage(table, id, depth)
            case Ok(chain) => Resolve(table, id, depth) == Ok(PathOf(chain))
            case Err(f) => Resolve(table, id, depth) == Err(f)
    decreases MaxDepth - depth
  {
    if id > 0 && depth + 1 < MaxDepth {
      var rows := Lookup(table, id);
      if |rows| == 1 {
        if rows[0].parent > 0 {
          ResolveFollowsLineage(table, rows[0].parent, depth + 1);
          match Lineage(table, rows[0].parent, depth + 1)
          case Ok(above) =>
            var chain := [rows[0]] + above;
            assert Lineage(table, id, depth) == Ok(chain);
            assert chain[1..] == above;
            assert PathOf(chain) == PathOf(above) + (PyStr.StrOf(rows[0].title) + "/");
          case Err(f) =>
        } else {
          assert PathOf([rows[0]]) == PathOf([]);
        }
      }
    }
  }

  /** What `Lineage` returns is a well-formed walk. */
  lemma {:induction false} LineageSound(table: seq<Entry>, id: int, depth: nat)
    requires Lineage(table, id, depth).Ok?
    ensures IsLineage(table, id, depth, Lineage(table, id, depth).value)
    decreases MaxDepth - depth
  {
    if id > 0 {
      var rows := Lookup(table, id);
      if rows[0].parent > 0 {
        LineageSound(table, rows[0].parent, depth + 1);
        LineageCons(table, id, depth, rows[0], Lineage(table, rows[0].parent, depth + 1).value);
      }
    }
  }

  /** The unique row of a folder, put in front of a chain from its parent,
      is a chain from the folder. */
  lemma LineageCons(table: seq<Entry>, id: int, depth: nat, e: Entry, above: seq<Entry>)
    requires id > 0 && Lookup(table, id) == [e] && e.parent > 0
    requires IsLineage(table, e.parent, depth + 1, above)
    ensures IsLineage(table, id, depth, [e] + above)
  {
    var chain := [e] + above;
    forall k | 0 <= k < |chain| ensures Lookup(table, chain[k].id) == [chain[k]] {
      if k > 0 {
        assert chain[k] == above[k - 1];
      }
    }
    forall k | 0 <= k < |chain| - 1
      ensures chain[k].parent > 0 && chain[k + 1].id == chain[k].parent
    {
      if k > 0 {
        assert chain[k] == above[k - 1] && chain[k + 1] == above[k];
      }
    }
    assert chain[|chain| - 1] == above[|above| - 1];
  }

  /** A chain from a folder, less its first row, is a chain from the
      folder's parent. */
  lemma LineageTail(table: seq<Entry>, id: int, depth: nat, chain: seq<Entry>)
    requires id > 0 && |chain| > 1 && IsLineage(table, id, depth, chain)
    ensures IsLineage(table, chain[0].parent, depth + 1, chain[1..])
  {
    var above := chain[1..];
    forall k | 0 <= k < |above| ensures Lookup(table, above[k].id) == [above[k]] {
      assert above[k] == chain[k + 1];
    }
    forall k | 0 <= k < |above| - 1
      ensures above[k].parent > 0 && above[k + 1].id == above[k].parent
    {
      assert above[k] == chain[k + 1] && above[k + 1] == chain[k + 2];
    }
  }

  /** Every well-formed walk is the one `Lineage` finds: together with
      `LineageSound`, the walk succeeds exactly when such a chain exists. */
  lemma {:induction false} LineageComplete(table: seq<Entry>, id: int, depth: nat, chain: seq<Entry>)
    requires IsLineage(table, id, depth, chain)
    ensures Lineage(table, id, depth) == Ok(chain)
    decreases |chain|
  {
    if id > 0 {
      assert Lookup(table, chain[0].id) == [chain[0]];
      if |chain| > 1 {
        var above := chain[1..];
        LineageTail(table, id, depth, chain);
        LineageComplete(table, chain[0].parent, depth + 1, above);
        assert [chain[0]] + above == chain;
      } else {
        assert [chain[0]] == chain;
      }
    }
  }

  /** A successful walk makes fewer lookups than the hop bound allows
      (at most 98 from the start). */
  lemma LineageBounded(table: seq<Entry>, id: int, depth: nat)
    requires depth < MaxDepth && Lineage(table, id, depth).Ok?
    ensures depth + |Lineage(table, id, depth).value| < MaxDepth
  {
    LineageSound(table, id, depth);
  }

  /** The walk fails rather than loops: starting inside a set of positive
      folder ids that each find exactly one row whose parent is again in the
      set (a cycle, or a chain that never reaches the root), it stops with
      `TooDeep`. */
  lemma {:induction false} CycleFails(table: seq<Entry>, ids: set<int>, id: int, depth: nat)
    requires id in ids
    requires forall x :: x in ids ==>
               x > 0 && |Lookup(table, x)| == 1 && Lookup(table, x)[0].parent in ids
    ensures Resolve(table, id, depth) == Err(TooDeep)
    decreases MaxDepth - depth
  {
    if depth + 1 < MaxDepth {
      var rows := Lookup(table, id);
      CycleFails(table, ids, rows[0].parent, depth + 1);
    }
  }

  /** A chain result with `below` put in front of the chain. */
  function Below(below: seq<Entry>, r: Result<seq<Entry>, Fault>): Result<seq<Entry>, Fault>
  {
    match r
    case Ok(above) => Ok(below + above)
    case Err(f) => Err(f)
  }

  lemma ExtendAssociates(r: Result<string, Fault>, a: string, b: string)
    ensures Extend(Extend(r, a), b) == Extend(r, a + b)
    ensures Extend(r, []) == r
  {
    if r.Ok? {
      assert r.value + [] == r.value;
      assert r.value + a + b == r.value + (a + b);
    }
  }

  lemma BelowAssociates(a: seq<Entry>, b: seq<Entry>, r: Result<seq<Entry>, Fault>)
    ensures Below(a, Below(b, r)) == Below(a + b, r)
    ensures Below([], r) == r
  {
    if r.Ok? {
      assert [] + r.value == r.value;
      assert a + (b + r.value) == a + b + r.value;
    }
  }

  /** One iteration of the loop: a folder with exactly one row. */
  lemma WalkStep(table: seq<Entry>, id: int, depth: nat)
    requires id > 0 && depth + 1 < MaxDepth && |Lookup(table, id)| == 1
    ensures var e := Lookup(table, id)[0];
            && Resolve(table, id, depth)
               == (if e.parent <= 0 then Ok("/")
                   else Extend(Resolve(table, e.parent, depth + 1), PyStr.StrOf(e.title) + "/"))
            && Lineage(table, id, depth) == Below([e], Lineage(table, e.parent, depth + 1))
  {
    var e := Lookup(table, id)[0];
    if e.parent <= 0 {
      assert [e] + [] == [e];
    }
  }

  /** What the loop of `ParentPath` keeps: the path built so far, once the
      walk from `id` finishes, extends to the walk from the start, and the
      folders seen so far, once the lineage from `id` is known, extend to
      the lineage from the start. */
  ghost predicate Tracks(table: seq<Entry>, id: int, depth: nat, seen: seq<Entry>, path: string,
                         goal: Result<string, Fault>, chain: Result<seq<Entry>, Fault>)
  {
    && |path| >= 1 && path[0] == '/'
    && Extend(Resolve(table, id, depth), path[1..]) == goal
    && Below(seen, Lineage(table, id, depth)) == chain
  }

  /** Before the loop: nothing seen, and the path is "/". */
  lemma StartTracks(table: seq<Entry>, id: int)
    ensures Tracks(table, id, 0, [], "/", Resolve(table, id, 0), Lineage(table, id, 0))
  {
    assert "/"[1..] == [];
    ExtendAssociates(Resolve(table, id, 0), "", "");
    BelowAssociates([], [], Lineage(table, id, 0));
  }

  /** One pass of the loop: look up the single row `e` of `id`, record it,
      and put its title in front of the path unless it is a root. */
  lemma LoopStep(table: seq<Entry>, id: int, depth: nat, seen: seq<Entry>, path: string,
                 goal: Result<string, Fault>, chain: Result<seq<Entry>, Fault>,
                 e: Entry, next: string, deeper: nat)
    requires id > 0 && deeper == depth + 1 < MaxDepth
    requires |Lookup(table, id)| == 1 && Lookup(table, id)[0] == e
    requires Tracks(table, id, depth, seen, path, goal, chain)
    requires next == if e.parent > 0 then "/" + PyStr.StrOf(e.title) + path else path
    ensures Tracks(table, e.parent, deeper, seen + [e], next, goal, chain)
  {
    WalkStep(table, id, depth);
    BelowAssociates(seen, [e], Lineage(table, e.parent, depth + 1));
    if e.parent > 0 {
      var segment := PyStr.StrOf(e.title);
      assert ("/" + segment + path)[1..] == (segment + "/") + path[1..];
      ExtendAssociates(Resolve(table, e.parent, depth + 1), segment + "/", path[1..]);
    }
  }

  /** The loop gives up at the depth bound, and so does the walk. */
  lemma StopTooDeep(table: seq<Entry>, id: int, depth: nat, seen: seq<Entry>, path: string,
                    goal: Result<string, Fault>, chain: Result<seq<Entry>, Fault>)
    requires id > 0 && depth + 1 >= MaxDepth
    requires Tracks(table, id, depth, seen, path, goal, chain)
    ensures goal == Err(TooDeep)
  {
  }

  /** The loop gives up on a folder query that does not find exactly one
      row, and so does the walk. */
  lemma StopRowCount(table: seq<Entry>, id: int, depth: nat, seen: seq<Entry>, path: string,
                     goal: Result<string, Fault>, chain: Result<seq<Entry>, Fault>)
    requires id > 0 && depth + 1 < MaxDepth && |Lookup(table, id)| != 1
    requires Tracks(table, id, depth, seen, path, goal, chain)
    ensures goal == Err(RowCount(id, |Lookup(table, id)|))
  {
  }

  /** The loop ends at a root: the built path is the walk's result and the
      folders seen are the lineage. */
  lemma StopAtRoot(table: seq<Entry>, id: int, depth: nat, seen: seq<Entry>, path: string,
                   goal: Result<string, Fault>, chain: Result<seq<Entry>, Fault>)
    requires id <= 0
    requires Tracks(table, id, depth, seen, path, goal, chain)
    ensures goal == Ok(path) && chain == Ok(seen)
  {
    assert path == "/" + path[1..];
    assert seen + [] == seen;
  }

  /** `get_parent_path(con, id)`: the loop of the source. `lookups` counts the
      folder queries it issues. */
  method ParentPath(table: seq<Entry>, id: int) returns (r: Result<string, Fault>, lookups: nat)
    ensures r == Resolve(table, id, 0)
    ensures lookups < MaxDepth
    ensures id <= 0 ==> lookups == 0
    ensures r.Ok? ==> Lineage(table, id, 0).Ok? && lookups == |Lineage(table, id, 0).value|
  {
    var depth: nat := 0;
    var parentId := id;
    var path := "/";
    ghost var seen: seq<Entry> := [];
    ghost var goal := Resolve(table, id, 0);
    ghost var chain := Lineage(table, id, 0);
    lookups := 0;
    StartTracks(table, id);
    while 0 < parentId
      invariant depth < MaxDepth && lookups == depth == |seen|
      invariant id <= 0 ==> parentId == id
      invariant Tracks(table, parentId, depth, seen, path, goal, chain)
      decreases MaxDepth - depth
    {
      ghost var hops := depth;
      depth := depth + 1;
      if !(depth < MaxDepth) {
        StopTooDeep(table, parentId, hops, seen, path, goal, chain);
        return Err(TooDeep), lookups;
      }
      var rows := Lookup(table, parentId);
      lookups := lookups + 1;
      if |rows| != 1 {
        StopRowCount(table, parentId, hops, seen, path, goal, chain);
        return Err(RowCount(parentId, |rows|)), lookups;
      }
      ghost var before := path;
      ghost var current := parentId;
      parentId := rows[0].parent;
      if 0 < parentId {
        path := "/" + PyStr.StrOf(rows[0].title) + path;
      }
      LoopStep(table, current, hops, seen, before, goal, chain, rows[0], path, depth);
      seen := seen + [rows[0]];
    }
    StopAtRoot(table, parentId, depth, seen, path, goal, chain);
    r := Ok(path);
  }

}
