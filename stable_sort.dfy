/** `list.sort(key=...)` with string keys, as `get_bookmarks` uses it: keys
    are compared with Python's `<` on `str` (PyStr.Less), and the sort is
    stable. `Sort` is the specification (insertion of each element after
    every element whose key is not greater); `SortInPlace` is an in-place
    insertion sort on an array proved to produce exactly `Sort`. The lemmas
    show that `Sort` gives a non-decreasing permutation of its input that
    keeps elements with equal keys in their original order, and that no
    other sequence has those three properties, so any stable sort (Python's
    included) gives the same list. */
module StableSort {
  import PyStr

  /** `s` with `x` placed after every element whose key is not greater. */
  function Insert<T>(s: seq<T>, x: T, key: T -> string): seq<T>
    decreases |s|
  {
    if s == [] || !PyStr.Less(key(x), key(s[|s| - 1])) then s + [x]
    else Insert(s[..|s| - 1], x, key) + [s[|s| - 1]]
  }

  /** The stably sorted list. */
  function Sort<T>(s: seq<T>, key: T -> string): seq<T>
    decreases |s|
  {
    if s == [] then [] else Insert(Sort(s[..|s| - 1], key), s[|s| - 1], key)
  }

  /** No element has a key strictly below the key of an element before it. */
  ghost predicate Sorted<T>(s: seq<T>, key: T -> string)
  {
    forall i, j :: 0 <= i < j < |s| ==> !PyStr.Less(key(s[j]), key(s[i]))
  }

  /** The elements of `s` whose key is `k`, in order. */
  function WithKey<T>(s: seq<T>, key: T -> string, k: string): seq<T>
    decreases |s|
  {
    if s == [] then []
    else WithKey(s[..|s| - 1], key, k) + (if key(s[|s| - 1]) == k then [s[|s| - 1]] else [])
  }

  // ---------------------------------------------------------------------
  // The order

  /** "not below" is transitive. */
  lemma NotLessTransitive(a: string, b: string, c: string)
    requires !PyStr.Less(b, a) && !PyStr.Less(c, b)
    ensures !PyStr.Less(c, a)
  {
    PyStr.LessTotal(a, b);
    if PyStr.Less(c, a) && a != b {
      PyStr.LessTransitive(c, a, b);
    }
  }

  // ---------------------------------------------------------------------
  // Insert

  lemma {:induction false} InsertMultiset<T>(s: seq<T>, x: T, key: T -> string)
    ensures multiset(Insert(s, x, key)) == multiset(s) + multiset{x}
    decreases |s|
  {
    if s != [] && PyStr.Less(key(x), key(s[|s| - 1])) {
      InsertMultiset(s[..|s| - 1], x, key);
      assert s == s[..|s| - 1] + [s[|s| - 1]];
    }
  }

  lemma {:induction false} InsertSorted<T>(s: seq<T>, x: T, key: T -> string)
    requires Sorted(s, key)
    ensures Sorted(Insert(s, x, key), key)
    decreases |s|
  {
    if s == [] {
    } else if !PyStr.Less(key(x), key(s[|s| - 1])) {
      var r := s + [x];
      forall i, j | 0 <= i < j < |r| ensures !PyStr.Less(key(r[j]), key(r[i])) {
        if j == |s| && i < |s| - 1 {
          NotLessTransitive(key(s[i]), key(s[|s| - 1]), key(x));
        }
      }
    } else {
      var init, last := s[..|s| - 1], s[|s| - 1];
      InsertSorted(init, x, key);
      var m := Insert(init, x, key);
      InsertMultiset(init, x, key);
      var r := m + [last];
      forall i, j | 0 <= i < j < |r| ensures !PyStr.Less(key(r[j]), key(r[i])) {
        if j == |m| {
          assert r[i] in multiset(m);
          if r[i] == x {
            PyStr.LessIrreflexive(key(x));
            if PyStr.Less(key(last), key(x)) {
              PyStr.LessTransitive(key(x), key(last), key(x));
            }
          } else {
            assert r[i] in multiset(init);
            var k :| 0 <= k < |init| && init[k] == r[i];
            assert s[k] == r[i];
          }
        }
      }
    }
  }

  lemma WithKeyAppend<T>(s: seq<T>, t: seq<T>, key: T -> string, k: string)
    ensures WithKey(s + t, key, k) == WithKey(s, key, k) + WithKey(t, key, k)
    decreases |t|
  {
    if t != [] {
      WithKeyAppend(s, t[..|t| - 1], key, k);
      assert (s + t)[..|s + t| - 1] == s + t[..|t| - 1];
    } else {
      assert s + t == s;
    }
  }

  /** Inserting `x` adds it to the end of its own key class and leaves the
      others alone: elements with equal keys keep their order. */
  lemma {:induction false} InsertWithKey<T>(s: seq<T>, x: T, key: T -> string, k: string)
    ensures WithKey(Insert(s, x, key), key, k)
            == WithKey(s, key, k) + (if key(x) == k then [x] else [])
    decreases |s|
  {
    if s == [] || !PyStr.Less(key(x), key(s[|s| - 1])) {
      WithKeyAppend(s, [x], key, k);
      assert WithKey([x], key, k) == WithKey([], key, k) + (if key(x) == k then [x] else []);
    } else {
      var init, last := s[..|s| - 1], s[|s| - 1];
      InsertWithKey(init, x, key, k);
      WithKeyAppend(Insert(init, x, key), [last], key, k);
      assert WithKey([last], key, k) == WithKey([], key, k) + (if key(last) == k then [last] else []);
      PyStr.LessIrreflexive(key(x));
    }
  }

  // ---------------------------------------------------------------------
  // Sort

  /** The result of `Sort` is in non-decreasing key order. */
  lemma {:induction false} SortSorted<T>(s: seq<T>, key: T -> string)
    ensures Sorted(Sort(s, key), key)
    decreases |s|
  {
    if s != [] {
      SortSorted(s[..|s| - 1], key);
      InsertSorted(Sort(s[..|s| - 1], key), s[|s| - 1], key);
    }
  }

  /** The result of `Sort` is a permutation of its input. */
  lemma {:induction false} SortPermutation<T>(s: seq<T>, key: T -> string)
    ensures multiset(Sort(s, key)) == multiset(s)
    decreases |s|
  {
    if s != [] {
      SortPermutation(s[..|s| - 1], key);
      InsertMultiset(Sort(s[..|s| - 1], key), s[|s| - 1], key);
      assert s == s[..|s| - 1] + [s[|s| - 1]];
    }
  }

  /** The sort is stable: the elements sharing any one key appear in the
      result in the order they had in the input. */
  lemma {:induction false} SortStable<T>(s: seq<T>, key: T -> string, k: string)
    ensures WithKey(Sort(s, key), key, k) == WithKey(s, key, k)
    decreases |s|
  {
    if s != [] {
      SortStable(s[..|s| - 1], key, k);
      InsertWithKey(Sort(s[..|s| - 1], key), s[|s| - 1], key, k);
    }
  }

  lemma {:induction false} WithKeyMembers<T>(s: seq<T>, key: T -> string, k: string, x: T)
    requires x in WithKey(s, key, k)
    ensures key(x) == k && x in s
    decreases |s|
  {
    var init := s[..|s| - 1];
    if x in WithKey(init, key, k) {
      WithKeyMembers(init, key, k, x);
    }
  }

  lemma WithKeyOfLast<T>(s: seq<T>, key: T -> string)
    ensures s != [] ==> WithKey(s, key, key(s[|s| - 1])) != []
  {
  }

  lemma {:induction false} SortedEqual<T>(u: seq<T>, v: seq<T>, key: T -> string)
    requires Sorted(u, key) && Sorted(v, key)
    requires forall k :: WithKey(u, key, k) == WithKey(v, key, k)
    ensures u == v
    decreases |u|
  {
    if u == [] || v == [] {
      WithKeyOfLast(u, key);
      WithKeyOfLast(v, key);
    } else {
      var a, b := u[|u| - 1], v[|v| - 1];
      LastKeyIsMax(u, v, key);
      LastKeyIsMax(v, u, key);
      PyStr.LessTotal(key(a), key(b));
      assert key(a) == key(b);
      var ui, vi := u[..|u| - 1], v[..|v| - 1];
      forall k ensures WithKey(ui, key, k) == WithKey(vi, key, k) {
        var x, y := WithKey(ui, key, k), WithKey(vi, key, k);
        assert WithKey(u, key, k) == x + (if key(a) == k then [a] else []);
        assert WithKey(v, key, k) == y + (if key(b) == k then [b] else []);
        assert WithKey(u, key, k) == WithKey(v, key, k);
        if key(a) == k {
          assert x + [a] == y + [b];
          assert |x| == |y|;
          assert x == (x + [a])[..|x|] == (y + [b])[..|y|] == y;
        } else {
          assert x + [] == x && y + [] == y;
        }
      }
      SortedEqual(ui, vi, key);
      var x := WithKey(ui, key, key(a));
      assert WithKey(u, key, key(a)) == x + [a];
      assert WithKey(v, key, key(a)) == x + [b];
      assert (x + [a])[|x|] == a;
      assert u == ui + [a] && v == vi + [b];
    }
  }

  /** With the same key classes, the last key of a sorted `u` is not below
      the last key of `v`. */
  lemma LastKeyIsMax<T>(u: seq<T>, v: seq<T>, key: T -> string)
    requires u != [] && v != [] && Sorted(u, key)
    requires forall k :: WithKey(u, key, k) == WithKey(v, key, k)
    ensures !PyStr.Less(key(u[|u| - 1]), key(v[|v| - 1]))
  {
    var b := v[|v| - 1];
    var k := key(b);
    assert b in WithKey(v, key, k);
    assert b in WithKey(u, key, k);
    WithKeyMembers(u, key, k, b);
    var i :| 0 <= i < |u| && u[i] == b;
    if i < |u| - 1 {
      assert !PyStr.Less(key(u[|u| - 1]), key(u[i]));
    } else {
      PyStr.LessIrreflexive(k);
    }
  }

  /** Only one list is sorted and keeps every key class of `s` in order, so
      any stable sort of `s` by `key` gives `Sort(s, key)`. */
  lemma SortUnique<T>(s: seq<T>, t: seq<T>, key: T -> string)
    requires Sorted(t, key)
    requires forall k :: WithKey(t, key, k) == WithKey(s, key, k)
    ensures t == Sort(s, key)
  {
    SortSorted(s, key);
    forall k ensures WithKey(t, key, k) == WithKey(Sort(s, key), key, k) {
      SortStable(s, key, k);
    }
    SortedEqual(t, Sort(s, key), key);
  }

  // ---------------------------------------------------------------------
  // The in-place insertion sort

  /** Shifting one element of the sorted part right, past `x`, leaves the
      same insertion still to do on a shorter prefix. */
  lemma InsertShift<T>(done: seq<T>, j: nat, x: T, key: T -> string)
    requires 0 < j <= |done| && PyStr.Less(key(x), key(done[j - 1]))
    ensures Insert(done[..j], x, key) + done[j..] == Insert(done[..j - 1], x, key) + done[j - 1..]
  {
    assert done[..j][..j - 1] == done[..j - 1];
    assert done[j - 1..] == [done[j - 1]] + done[j..];
  }

  /** Where the shifting stops, `x` goes. */
  lemma InsertStop<T>(done: seq<T>, j: nat, x: T, key: T -> string)
    requires j <= |done| && (j == 0 || !PyStr.Less(key(x), key(done[j - 1])))
    ensures Insert(done[..j], x, key) + done[j..] == done[..j] + [x] + done[j..]
  {
  }

  /** A sequence that agrees with `done` before `j`, holds `x` at `j`, and
      agrees with `done` shifted by one after `j`, is the insertion of `x`
      at `j`. */
  lemma Placed<T>(done: seq<T>, j: nat, x: T, s: seq<T>)
    requires j <= |done| && |s| == |done| + 1 && s[j] == x
    requires forall k :: 0 <= k < j ==> s[k] == done[k]
    requires forall k :: j < k < |s| ==> s[k] == done[k - 1]
    ensures s == done[..j] + [x] + done[j..]
  {
    var placed := done[..j] + [x] + done[j..];
    forall k | 0 <= k < |s| ensures s[k] == placed[k] {
      if j < k {
        assert placed[k] == done[j..][k - j - 1] == done[k - 1];
      }
    }
  }

  /** One pass of the insertion sort: the element at `i` is moved left past
      every element of the sorted part whose key is greater. */
  method InsertInPlace<T>(a: array<T>, i: nat, key: T -> string)
    requires i < a.Length
    modifies a
    ensures a[..i + 1] == Insert(old(a[..i]), old(a[i]), key)
    ensures forall k :: i < k < a.Length ==> a[k] == old(a[k])
  {
    var x := a[i];
    ghost var done := a[..i];
    var j := i;
    assert done[..j] == done && done[j..] == [];
    while j > 0 && PyStr.Less(key(x), key(a[j - 1]))
      invariant 0 <= j <= i
      invariant forall k :: 0 <= k < j ==> a[k] == done[k]
      invariant forall k :: j < k <= i ==> a[k] == done[k - 1]
      invariant forall k :: i < k < a.Length ==> a[k] == old(a[k])
      invariant Insert(done, x, key) == Insert(done[..j], x, key) + done[j..]
    {
      InsertShift(done, j, x, key);
      a[j] := a[j - 1];
      j := j - 1;
    }
    InsertStop(done, j, x, key);
    a[j] := x;
    Placed(done, j, x, a[..i + 1]);
  }

  /** Sorts `a` in place by `key`; the result is exactly `Sort`. */
  method SortInPlace<T>(a: array<T>, key: T -> string)
    modifies a
    ensures a[..] == Sort(old(a[..]), key)
  {
    ghost var input := a[..];
    var i := 0;
    while i < a.Length
      invariant 0 <= i <= a.Length
      invariant a[..i] == Sort(input[..i], key)
      invariant forall k :: i <= k < a.Length ==> a[k] == input[k]
    {
      InsertInPlace(a, i, key);
      assert input[..i + 1][..i] == input[..i];
      i := i + 1;
    }
    assert input[..a.Length] == input;
  }
}
