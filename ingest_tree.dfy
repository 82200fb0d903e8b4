/** The indentation tree of a statement table (attach_parents) and the
    post-order roll-up of note numbers to parents (rollup_note_nos_to_parents),
    both in src/ingest.py. Rows are updated in place, as the source updates
    its row dictionaries. */
module IngestTree {
  import opened Common

  /** One parsed table row (the dictionary built by the table parsers). */
  datatype TableRow = TableRow(
    rowIdx: nat,
    labelKo: string,
    labelClean: string,
    indent: int,
    parent: Option<nat>,
    isAbstract: bool,
    ifrsCode: Option<string>,
    noteRefsRaw: Option<string>,
    noteNos: seq<nat>)

  // ---------------------------------------------------------------------
  // attach_parents
  // ---------------------------------------------------------------------

  /** The position of the nearest row before `j` whose indent is below `il`. */
  function NearestBelow(rows: seq<TableRow>, j: nat, il: int): Option<nat>
    requires j <= |rows|
  {
    if j == 0 then None
    else if rows[j - 1].indent < il then Some(j - 1)
    else NearestBelow(rows, j - 1, il)
  }

  /** The search finds the nearest such row, or proves there is none. */
  lemma {:induction false} NearestBelowSpec(rows: seq<TableRow>, j: nat, il: int)
    requires j <= |rows|
    ensures NearestBelow(rows, j, il).Some? ==>
      NearestBelow(rows, j, il).value < j && rows[NearestBelow(rows, j, il).value].indent < il
    ensures NearestBelow(rows, j, il).Some? ==>
      forall m :: NearestBelow(rows, j, il).value < m < j ==> rows[m].indent >= il
    ensures NearestBelow(rows, j, il).None? ==> forall m :: 0 <= m < j ==> rows[m].indent >= il
  {
    if j > 0 && rows[j - 1].indent >= il { NearestBelowSpec(rows, j - 1, il); }
  }

  /** The position of row k's parent: the nearest preceding row with a
      strictly smaller indent. */
  function ParentPos(rows: seq<TableRow>, k: nat): Option<nat>
    requires k < |rows|
  {
    NearestBelow(rows, k, rows[k].indent)
  }

  /** The parent_row_idx attach_parents writes into row k. */
  function ParentOf(rows: seq<TableRow>, k: nat): Option<nat>
    requires k < |rows|
  {
    NearestBelowSpec(rows, k, rows[k].indent);
    match ParentPos(rows, k)
    case Some(j) => Some(rows[j].rowIdx)
    case None => None
  }

  /** No row between j and k is indented at or below row j. */
  predicate Visible(rows: seq<TableRow>, j: nat, k: nat)
    requires j < k <= |rows|
  {
    forall m :: j < m < k ==> rows[m].indent > rows[j].indent
  }

  /** The rows still on the stack before row k is handled: exactly the
      visible ones, in row order. */
  predicate OnStack(rows: seq<TableRow>, k: nat, pos: seq<nat>)
    requires k <= |rows|
  {
    (forall t :: 0 <= t < |pos| ==> pos[t] < k)
    && (forall t, u :: 0 <= t < u < |pos| ==> pos[t] < pos[u])
    && (forall j :: 0 <= j < k ==> (j in pos <==> Visible(rows, j, k)))
  }

  /** Indents along the stack strictly increase. */
  lemma OnStackIncreasing(rows: seq<TableRow>, k: nat, pos: seq<nat>, t: nat, u: nat)
    requires k <= |rows| && OnStack(rows, k, pos)
    requires t < u < |pos|
    ensures rows[pos[t]].indent < rows[pos[u]].indent
  {
    assert pos[t] in pos;
    assert Visible(rows, pos[t], k);
  }

  /** Popping every entry indented at or beyond row k's indent leaves the
      parent of row k on top. */
  lemma PopLeavesParent(rows: seq<TableRow>, k: nat, pos: seq<nat>, keep: nat)
    requires k < |rows| && OnStack(rows, k, pos)
    requires keep <= |pos|
    requires forall t :: keep <= t < |pos| ==> rows[pos[t]].indent >= rows[k].indent
    requires keep > 0 ==> rows[pos[keep - 1]].indent < rows[k].indent
    ensures ParentPos(rows, k) == if keep > 0 then Some(pos[keep - 1]) else None
  {
    var il := rows[k].indent;
    NearestBelowSpec(rows, k, il);
    match NearestBelow(rows, k, il)
    case Some(j) =>
      assert Visible(rows, j, k);
      assert j in pos;
      var t :| 0 <= t < |pos| && pos[t] == j;
      assert t < keep;
    case None =>
  }

  /** Pushing row k onto the popped stack gives the stack for row k + 1. */
  lemma PushOnStack(rows: seq<TableRow>, k: nat, pos: seq<nat>, keep: nat)
    requires k < |rows| && OnStack(rows, k, pos)
    requires keep <= |pos|
    requires forall t :: keep <= t < |pos| ==> rows[pos[t]].indent >= rows[k].indent
    requires keep > 0 ==> rows[pos[keep - 1]].indent < rows[k].indent
    ensures OnStack(rows, k + 1, pos[..keep] + [k])
  {
    var il := rows[k].indent;
    forall t | 0 <= t < keep
      ensures rows[pos[t]].indent < il
    {
      if t < keep - 1 { OnStackIncreasing(rows, k, pos, t, keep - 1); }
    }
    var np := pos[..keep] + [k];
    forall j | 0 <= j < k + 1
      ensures j in np <==> Visible(rows, j, k + 1)
    {
      if j < k {
        if j in np {
          var t :| 0 <= t < |np| && np[t] == j;
          assert t < keep && pos[t] == j;
          assert Visible(rows, j, k);
        }
        if Visible(rows, j, k + 1) {
          assert Visible(rows, j, k);
          assert j in pos;
          var t :| 0 <= t < |pos| && pos[t] == j;
          assert t < keep;
          assert np[t] == j;
        }
      } else {
        assert np[|np| - 1] == j;
      }
    }
  }

  /** The stack holds (indent, row_idx) of the rows at positions pos. */
  predicate StackOf(rows: seq<TableRow>, pos: seq<nat>, stack: seq<(int, nat)>) {
    |stack| == |pos|
    && forall t :: 0 <= t < |pos| ==> pos[t] < |rows| && stack[t] == (rows[pos[t]].indent, rows[pos[t]].rowIdx)
  }

  lemma StackPush(rows: seq<TableRow>, pos: seq<nat>, stack: seq<(int, nat)>, keep: nat, k: nat)
    requires StackOf(rows, pos, stack) && keep <= |pos| && k < |rows|
    ensures StackOf(rows, pos[..keep] + [k], stack[..keep] + [(rows[k].indent, rows[k].rowIdx)])
  {
  }

  /** attach_parents: every row's parent_row_idx becomes the row_idx of the
      nearest preceding row with a strictly smaller indent, or None. Only the
      parent field changes. */
  method AttachParents(rows: array<TableRow>)
    modifies rows
    ensures forall k :: 0 <= k < rows.Length ==>
      rows[k] == old(rows[k]).(parent := ParentOf(old(rows[..]), k))
  {
    ghost var orig := rows[..];
    var stack: seq<(int, nat)> := [];
    ghost var pos: seq<nat> := [];
    var k := 0;
    while k < rows.Length
      invariant 0 <= k <= rows.Length
      invariant forall m {:trigger rows[m]} :: 0 <= m < k ==> rows[m] == orig[m].(parent := ParentOf(orig, m))
      invariant forall m {:trigger rows[m]} :: k <= m < rows.Length ==> rows[m] == orig[m]
      invariant OnStack(orig, k, pos)
      invariant StackOf(orig, pos, stack)
    {
      assert rows[k] == orig[k];
      var il := rows[k].indent;
      var keep := |stack|;
      while keep > 0 && stack[keep - 1].0 >= il
        invariant 0 <= keep <= |stack| == |pos|
        invariant forall t :: keep <= t < |pos| ==> orig[pos[t]].indent >= il
      {
        keep := keep - 1;
      }
      PopLeavesParent(orig, k, pos, keep);
      PushOnStack(orig, k, pos, keep);
      StackPush(orig, pos, stack, keep, k);
      var parent := if keep > 0 then Some(stack[keep - 1].1) else None;
      rows[k] := rows[k].(parent := parent);
      stack := stack[..keep] + [(il, rows[k].rowIdx)];
      pos := pos[..keep] + [k];
      k := k + 1;
    }
  }

  /** Every row of a parser's output sits at the position its row_idx names,
      and (after attach_parents) its parent comes before it. */
  predicate Forest(rows: seq<TableRow>) {
    forall k :: 0 <= k < |rows| ==>
      rows[k].rowIdx == k && (rows[k].parent.Some? ==> rows[k].parent.value < k)
  }

  /** A parent always precedes its child: attach_parents turns rows numbered
      by position into a forest. */
  lemma AttachedIsForest(rows: seq<TableRow>, out: seq<TableRow>)
    requires forall k :: 0 <= k < |rows| ==> rows[k].rowIdx == k
    requires |out| == |rows|
    requires forall k :: 0 <= k < |rows| ==> out[k] == rows[k].(parent := ParentOf(rows, k))
    ensures Forest(out)
  {
    forall k | 0 <= k < |rows| {
      NearestBelowSpec(rows, k, rows[k].indent);
    }
  }

  // ---------------------------------------------------------------------
  // rollup_note_nos_to_parents
  // ---------------------------------------------------------------------

  /** set(note_nos) */
  function NoteSet(ns: seq<nat>): set<nat> {
    set n | n in ns
  }

  function Own(rows: seq<TableRow>, k: nat): set<nat>
    requires k < |rows|
  {
    NoteSet(rows[k].noteNos)
  }

  /** The note numbers of row k's subtree. */
  function Notes(rows: seq<TableRow>, k: nat): set<nat>
    requires k < |rows|
    decreases |rows| - k, 1
  {
    Own(rows, k) + ChildNotes(rows, k, k + 1)
  }

  /** The subtree notes of k's children at positions m and beyond. */
  function ChildNotes(rows: seq<TableRow>, k: nat, m: nat): set<nat>
    requires k < m
    decreases |rows| - k, 0, |rows| - m
  {
    if m >= |rows| then {}
    else (if rows[m].parent == Some(k) then Notes(rows, m) else {}) + ChildNotes(rows, k, m + 1)
  }

  /** d lies in the subtree of a: walking up the parents from d reaches a. */
  predicate Descends(rows: seq<TableRow>, a: nat, d: nat)
    requires d < |rows|
    decreases d
  {
    d == a
    || (rows[d].parent.Some? && rows[d].parent.value < d && Descends(rows, a, rows[d].parent.value))
  }

  lemma {:induction false} DescendsAbove(rows: seq<TableRow>, a: nat, d: nat)
    requires d < |rows| && Descends(rows, a, d)
    ensures a <= d
    decreases d
  {
    if d != a { DescendsAbove(rows, a, rows[d].parent.value); }
  }

  /** A child's subtree lies in its parent's. */
  lemma {:induction false} DescendsThroughChild(rows: seq<TableRow>, k: nat, c: nat, d: nat)
    requires k < c < |rows| && d < |rows|
    requires rows[c].parent == Some(k) && Descends(rows, c, d)
    ensures Descends(rows, k, d)
    decreases d
  {
    if d != c { DescendsThroughChild(rows, k, c, rows[d].parent.value); }
  }

  /** Each note of the subtree comes from some descendant. */
  lemma {:induction false} NotesFromDescendant(rows: seq<TableRow>, k: nat, n: nat) returns (d: nat)
    requires k < |rows| && n in Notes(rows, k)
    ensures d < |rows| && Descends(rows, k, d) && n in rows[d].noteNos
    decreases |rows| - k, 1
  {
    if n in Own(rows, k) {
      d := k;
    } else {
      d := ChildNotesFromDescendant(rows, k, k + 1, n);
    }
  }

  lemma {:induction false} ChildNotesFromDescendant(rows: seq<TableRow>, k: nat, m: nat, n: nat) returns (d: nat)
    requires k < m && n in ChildNotes(rows, k, m)
    ensures d < |rows| && Descends(rows, k, d) && n in rows[d].noteNos
    decreases |rows| - k, 0, |rows| - m
  {
    if rows[m].parent == Some(k) && n in Notes(rows, m) {
      d := NotesFromDescendant(rows, m, n);
      DescendsThroughChild(rows, k, m, d);
    } else {
      d := ChildNotesFromDescendant(rows, k, m + 1, n);
    }
  }

  /** The child's subtree notes are among the parent's. */
  lemma {:induction false} ChildNotesCover(rows: seq<TableRow>, k: nat, m: nat, c: nat)
    requires k < m <= c < |rows| && rows[c].parent == Some(k)
    ensures Notes(rows, c) <= ChildNotes(rows, k, m)
    decreases c - m
  {
    if m < c { ChildNotesCover(rows, k, m + 1, c); }
  }

  lemma {:induction false} DescendantNotes(rows: seq<TableRow>, k: nat, d: nat)
    requires d < |rows| && k < |rows| && Descends(rows, k, d)
    ensures Notes(rows, d) <= Notes(rows, k)
    decreases d
  {
    if d != k {
      var p := rows[d].parent.value;
      DescendantNotes(rows, k, p);
      ChildNotesCover(rows, p, p + 1, d);
    }
  }

  /** The rolled-up note set of row k is exactly the union of the note
      numbers of k and all of its descendants. */
  lemma NotesAreSubtreeUnion(rows: seq<TableRow>, k: nat, n: nat)
    requires k < |rows|
    ensures n in Notes(rows, k) <==>
      exists d :: k <= d < |rows| && Descends(rows, k, d) && n in rows[d].noteNos
  {
    if n in Notes(rows, k) {
      var d := NotesFromDescendant(rows, k, n);
      DescendsAbove(rows, k, d);
    }
    if exists d :: k <= d < |rows| && Descends(rows, k, d) && n in rows[d].noteNos {
      var d :| k <= d < |rows| && Descends(rows, k, d) && n in rows[d].noteNos;
      DescendantNotes(rows, k, d);
      assert n in Own(rows, d);
    }
  }

  // sorted(set)

  predicate Increasing(s: seq<nat>) {
    forall t, u :: 0 <= t < u < |s| ==> s[t] < s[u]
  }

  lemma MinExists(s: set<nat>) returns (m: nat)
    requires s != {}
    ensures m in s && forall y :: y in s ==> m <= y
  {
    var x :| x in s;
    m := MinUpTo(s, x);
  }

  lemma {:induction false} MinUpTo(s: set<nat>, b: nat) returns (m: nat)
    requires exists x :: x in s && x <= b
    ensures m in s && forall y :: y in s ==> m <= y
    decreases b
  {
    if b > 0 && exists x :: x in s && x <= b - 1 {
      m := MinUpTo(s, b - 1);
    } else {
      var x :| x in s && x <= b;
      m := x;
    }
  }

  /** m is the least element of s. */
  predicate IsMin(s: set<nat>, m: nat) {
    m in s && forall y :: y in s ==> m <= y
  }

  lemma HasMin(s: set<nat>)
    requires s != {}
    ensures exists m :: IsMin(s, m)
  {
    var m := MinExists(s);
    assert IsMin(s, m);
  }

  /** Python's sorted() over a set of note numbers. */
  ghost function SortedOf(s: set<nat>): seq<nat>
    decreases |s|
  {
    if s == {} then []
    else
      HasMin(s);
      var m :| IsMin(s, m);
      [m] + SortedOf(s - {m})
  }

  /** sorted(s) lists the elements of s in increasing order. */
  lemma {:induction false} SortedOfSpec(s: set<nat>)
    ensures Increasing(SortedOf(s))
    ensures forall n :: n in SortedOf(s) <==> n in s
    decreases |s|
  {
    if s != {} {
      HasMin(s);
      var m :| IsMin(s, m);
      var tail := SortedOf(s - {m});
      assert SortedOf(s) == [m] + tail;
      SortedOfSpec(s - {m});
      forall t, u | 0 <= t < u < |SortedOf(s)|
        ensures SortedOf(s)[t] < SortedOf(s)[u]
      {
        assert SortedOf(s)[u] == tail[u - 1] && tail[u - 1] in tail;
        if t > 0 { assert SortedOf(s)[t] == tail[t - 1]; }
      }
    }
  }

  /** sorted(cur): picks the least remaining number until none is left. */
  method SortNotes(s: set<nat>) returns (r: seq<nat>)
    ensures r == SortedOf(s)
  {
    r := [];
    var rest := s;
    while rest != {}
      invariant SortedOf(s) == r + SortedOf(rest)
      decreases |rest|
    {
      HasMin(rest);
      var m :| IsMin(rest, m);
      assert SortedOf(rest) == [m] + SortedOf(rest - {m});
      r := r + [m];
      rest := rest - {m};
    }
  }

  /** Row k after the roll-up: note_nos is the sorted subtree union. */
  ghost function Rolled(rows: seq<TableRow>, k: nat): TableRow
    requires k < |rows|
  {
    rows[k].(noteNos := SortedOf(Notes(rows, k)))
  }

  /** Rows from `lo` on: a visited row is rolled up, any other is untouched. */
  ghost predicate Settled(cur: seq<TableRow>, rows: seq<TableRow>, visited: set<nat>, lo: nat) {
    |cur| == |rows|
    && forall m {:trigger cur[m]} :: lo <= m < |rows| ==>
      (m in visited ==> cur[m] == Rolled(rows, m)) && (m !in visited ==> cur[m] == rows[m])
  }

  /** From `lo` on, a visited row's children are visited. */
  predicate Closed(rows: seq<TableRow>, visited: set<nat>, lo: nat) {
    forall m, d :: lo <= m < d < |rows| && m in visited && rows[d].parent == Some(m) ==> d in visited
  }

  /** A visit that only changed rows from `mid` on keeps the rows from `lo` settled. */
  lemma SettledExtend(cur0: seq<TableRow>, cur1: seq<TableRow>, rows: seq<TableRow>,
                      v0: set<nat>, v1: set<nat>, lo: nat, mid: nat)
    requires lo <= mid <= |rows| && Settled(cur0, rows, v0, lo) && Settled(cur1, rows, v1, mid)
    requires cur1[..mid] == cur0[..mid]
    requires v0 <= v1 && forall m :: m in v1 && m !in v0 ==> mid <= m
    ensures Settled(cur1, rows, v1, lo)
  {
    forall m | lo <= m < |rows|
      ensures (m in v1 ==> cur1[m] == Rolled(rows, m)) && (m !in v1 ==> cur1[m] == rows[m])
    {
      if m < mid { assert cur1[..mid][m] == cur0[..mid][m]; }
    }
  }

  lemma SettledFrom(cur: seq<TableRow>, rows: seq<TableRow>, visited: set<nat>, lo: nat, mid: nat)
    requires lo <= mid && Settled(cur, rows, visited, lo)
    ensures Settled(cur, rows, visited, mid)
  {
  }

  lemma ClosedFrom(rows: seq<TableRow>, visited: set<nat>, lo: nat, mid: nat)
    requires lo <= mid && Closed(rows, visited, lo)
    ensures Closed(rows, visited, mid)
  {
  }

  /** Once all children of idx are visited, the visited set is closed from idx. */
  lemma ClosedAt(rows: seq<TableRow>, visited: set<nat>, idx: nat, cs: seq<nat>)
    requires idx < |rows| && Closed(rows, visited, idx + 1)
    requires cs == ChildList(rows, idx, |rows|) && forall u :: 0 <= u < |cs| ==> cs[u] in visited
    ensures Closed(rows, visited, idx)
  {
    ChildListSpec(rows, idx, |rows|);
    forall m, d | idx <= m < d < |rows| && m in visited && rows[d].parent == Some(m)
      ensures d in visited
    {
      if m == idx {
        var u :| 0 <= u < |cs| && cs[u] == d;
      }
    }
  }

  lemma ClosedExtend(rows: seq<TableRow>, v0: set<nat>, v1: set<nat>, lo: nat, mid: nat)
    requires lo <= mid && Closed(rows, v0, lo) && Closed(rows, v1, mid)
    requires v0 <= v1 && forall m :: m in v1 && m !in v0 ==> mid <= m
    ensures Closed(rows, v1, lo)
  {
    forall m, d | lo <= m < d < |rows| && m in v1 && rows[d].parent == Some(m)
      ensures d in v1
    {
      if m < mid { assert m in v0; }
    }
  }

  /** The positions of the rows whose parent is p among the first `upto`
      rows, in row order (the `children` dictionary). */
  function ChildList(rows: seq<TableRow>, p: nat, upto: nat): seq<nat>
    requires upto <= |rows|
  {
    if upto == 0 then []
    else ChildList(rows, p, upto - 1) + (if rows[upto - 1].parent == Some(p) then [upto - 1] else [])
  }

  lemma {:induction false} ChildListSpec(rows: seq<TableRow>, p: nat, upto: nat)
    requires upto <= |rows|
    ensures forall t :: 0 <= t < |ChildList(rows, p, upto)| ==>
      ChildList(rows, p, upto)[t] < upto && rows[ChildList(rows, p, upto)[t]].parent == Some(p)
    ensures forall m :: 0 <= m < upto && rows[m].parent == Some(p) ==> m in ChildList(rows, p, upto)
  {
    if upto > 0 { ChildListSpec(rows, p, upto - 1); }
  }

  /** The roots list: row_idx of the rows with no parent, in row order. */
  function Roots(rows: seq<TableRow>, upto: nat): seq<nat>
    requires upto <= |rows|
  {
    if upto == 0 then []
    else Roots(rows, upto - 1) + (if rows[upto - 1].parent.None? then [rows[upto - 1].rowIdx] else [])
  }

  lemma {:induction false} RootsSpec(rows: seq<TableRow>, upto: nat)
    requires Forest(rows) && upto <= |rows|
    ensures forall t :: 0 <= t < |Roots(rows, upto)| ==> Roots(rows, upto)[t] < upto
    ensures forall m :: 0 <= m < upto && rows[m].parent.None? ==> m in Roots(rows, upto)
  {
    if upto > 0 { RootsSpec(rows, upto - 1); }
  }

  function UnionNotes(rows: seq<TableRow>, cs: seq<nat>): set<nat> {
    if cs == [] then {}
    else UnionNotes(rows, cs[..|cs| - 1]) + (if cs[|cs| - 1] < |rows| then Notes(rows, cs[|cs| - 1]) else {})
  }

  /** Scanning the children of k from position m on gathers their notes. */
  lemma {:induction false} ChildNotesAsUnion(rows: seq<TableRow>, k: nat, m: nat)
    requires k < m <= |rows|
    ensures UnionNotes(rows, ChildList(rows, k, |rows|))
         == UnionNotes(rows, ChildList(rows, k, m)) + ChildNotes(rows, k, m)
    decreases |rows| - m
  {
    if m < |rows| {
      ChildNotesAsUnion(rows, k, m + 1);
      var a := ChildList(rows, k, m);
      if rows[m].parent == Some(k) {
        assert ChildList(rows, k, m + 1) == a + [m];
        assert (a + [m])[..|a|] == a;
      } else {
        assert ChildList(rows, k, m + 1) == a;
      }
    }
  }

  lemma {:induction false} NoChildBefore(rows: seq<TableRow>, k: nat, upto: nat)
    requires Forest(rows) && upto <= k + 1 && upto <= |rows|
    ensures ChildList(rows, k, upto) == []
  {
    if upto > 0 { NoChildBefore(rows, k, upto - 1); }
  }

  /** A row's notes are its own plus those of its children, in row order. */
  lemma NotesOfChildren(rows: seq<TableRow>, k: nat)
    requires Forest(rows) && k < |rows|
    ensures Notes(rows, k) == Own(rows, k) + UnionNotes(rows, ChildList(rows, k, |rows|))
  {
    ChildNotesAsUnion(rows, k, k + 1);
    NoChildBefore(rows, k, k + 1);
  }

  lemma Accumulate(cur: set<nat>, own: set<nat>, u0: set<nat>, u1: set<nat>, sub: set<nat>)
    requires cur == own + u0 && u1 == u0 + sub
    ensures cur + sub == own + u1
  {
  }

  lemma VisitedGrow(cs: seq<nat>, t: nat, v0: set<nat>, v1: set<nat>)
    requires t < |cs| && v0 <= v1 && cs[t] in v1
    requires forall u :: 0 <= u < t ==> cs[u] in v0
    ensures forall u :: 0 <= u < t + 1 ==> cs[u] in v1
  {
  }

  /** The post-order visit dfs(idx): returns the subtree notes of idx and
      leaves every row of the subtree rolled up. */
  method Dfs(a: array<TableRow>, ghost rows: seq<TableRow>, children: map<nat, seq<nat>>, idx: nat, visited: set<nat>)
    returns (cur: set<nat>, visitedOut: set<nat>)
    requires Forest(rows) && idx < |rows| && a.Length == |rows|
    requires forall p :: p in children ==> children[p] == ChildList(rows, p, |rows|)
    requires forall p :: p !in children ==> ChildList(rows, p, |rows|) == []
    requires Settled(a[..], rows, visited, idx) && Closed(rows, visited, idx)
    modifies a
    ensures cur == Notes(rows, idx)
    ensures idx in visitedOut && visited <= visitedOut
    ensures forall m :: m in visitedOut && m !in visited ==> idx <= m
    ensures Settled(a[..], rows, visitedOut, idx) && Closed(rows, visitedOut, idx)
    ensures a[..idx] == old(a[..idx])
    decreases |rows| - idx, 1
  {
    assert a[..][idx] == a[idx];
    if idx in visited {
      SortedOfSpec(Notes(rows, idx));
      cur := NoteSet(a[idx].noteNos);
      visitedOut := visited;
      return;
    }
    visitedOut := visited + {idx};
    cur := NoteSet(a[idx].noteNos);
    var cs := if idx in children then children[idx] else [];
    var t := 0;
    while t < |cs|
      invariant 0 <= t <= |cs|
      invariant Gathered(cur, rows, idx, cs, t)
      invariant idx in visitedOut && visited <= visitedOut
      invariant NewAbove(visited, visitedOut, idx)
      invariant forall u :: 0 <= u < t ==> cs[u] in visitedOut
      invariant Settled(a[..], rows, visitedOut, idx + 1) && Closed(rows, visitedOut, idx + 1)
      invariant a[..idx + 1] == old(a[..idx + 1])
    {
      ghost var v0 := visitedOut;
      cur, visitedOut := VisitChild(a, rows, children, idx, cs, t, cur, visitedOut);
      VisitedGrow(cs, t, v0, visitedOut);
      NewAboveGrow(visited, v0, visitedOut, idx);
      t := t + 1;
    }
    assert cs[..t] == cs;
    assert a[idx] == a[..idx + 1][idx] == old(a[..idx + 1])[idx] == rows[idx];
    RollUp(a, rows, idx, cs, cur, visitedOut);
  }

  /** After the loop over the children of idx: `row.note_nos =
      sorted(cur)` settles idx itself. */
  method RollUp(a: array<TableRow>, ghost rows: seq<TableRow>, idx: nat, cs: seq<nat>, cur: set<nat>,
                ghost visited: set<nat>)
    requires Forest(rows) && idx < |rows| && a.Length == |rows|
    requires cs == ChildList(rows, idx, |rows|) && Gathered(cur, rows, idx, cs, |cs|)
    requires idx in visited && forall u :: 0 <= u < |cs| ==> cs[u] in visited
    requires Settled(a[..], rows, visited, idx + 1) && Closed(rows, visited, idx + 1)
    requires a[idx] == rows[idx]
    modifies a
    ensures cur == Notes(rows, idx)
    ensures Settled(a[..], rows, visited, idx) && Closed(rows, visited, idx)
    ensures a[..idx] == old(a[..idx])
  {
    assert cs[..|cs|] == cs;
    ClosedAt(rows, visited, idx, cs);
    NotesOfChildren(rows, idx);
    var sorted := SortNotes(cur);
    ghost var was := a[..];
    a[idx] := a[idx].(noteNos := sorted);
    SettledAt(was, a[..], rows, visited, idx);
  }

  /** Every row visited since `visited` lies at or after idx. */
  ghost predicate NewAbove(visited: set<nat>, visitedOut: set<nat>, idx: nat) {
    forall m :: m in visitedOut && m !in visited ==> idx <= m
  }

  lemma NewAboveGrow(visited: set<nat>, v0: set<nat>, v1: set<nat>, idx: nat)
    requires NewAbove(visited, v0, idx)
    requires forall m :: m in v1 && m !in v0 ==> idx < m
    ensures NewAbove(visited, v1, idx)
  {
  }

  /** After the first t children of idx: own notes plus theirs. */
  ghost predicate Gathered(cur: set<nat>, rows: seq<TableRow>, idx: nat, cs: seq<nat>, t: nat)
    requires idx < |rows| && t <= |cs|
  {
    cur == Own(rows, idx) + UnionNotes(rows, cs[..t])
  }

  /** Rolling up row idx itself extends the settled range down to idx. */
  lemma SettledAt(cur0: seq<TableRow>, cur1: seq<TableRow>, rows: seq<TableRow>, visited: set<nat>, idx: nat)
    requires idx < |rows| && idx in visited && Settled(cur0, rows, visited, idx + 1)
    requires cur1 == cur0[idx := Rolled(rows, idx)]
    ensures Settled(cur1, rows, visited, idx)
  {
  }

  /** One turn of the loop over the children of idx: `cur |= dfs(c)`. */
  method VisitChild(a: array<TableRow>, ghost rows: seq<TableRow>, children: map<nat, seq<nat>>,
                    idx: nat, cs: seq<nat>, t: nat, cur: set<nat>, visited: set<nat>)
    returns (cur': set<nat>, visitedOut: set<nat>)
    requires Forest(rows) && idx < |rows| && a.Length == |rows|
    requires forall p :: p in children ==> children[p] == ChildList(rows, p, |rows|)
    requires forall p :: p !in children ==> ChildList(rows, p, |rows|) == []
    requires cs == ChildList(rows, idx, |rows|) && t < |cs|
    requires Gathered(cur, rows, idx, cs, t)
    requires Settled(a[..], rows, visited, idx + 1) && Closed(rows, visited, idx + 1)
    modifies a
    ensures Gathered(cur', rows, idx, cs, t + 1)
    ensures visited <= visitedOut && cs[t] in visitedOut
    ensures forall m :: m in visitedOut && m !in visited ==> idx < m
    ensures Settled(a[..], rows, visitedOut, idx + 1) && Closed(rows, visitedOut, idx + 1)
    ensures a[..idx + 1] == old(a[..idx + 1])
    decreases |rows| - idx, 0
  {
    ChildListSpec(rows, idx, |rows|);
    var ch := cs[t];
    assert ch < |rows| && rows[ch].parent == Some(idx);
    assert idx < ch;
    assert cs[..t + 1][..t] == cs[..t];
    assert UnionNotes(rows, cs[..t + 1]) == UnionNotes(rows, cs[..t]) + Notes(rows, ch);
    ghost var was := a[..];
    SettledFrom(was, rows, visited, idx + 1, ch);
    ClosedFrom(rows, visited, idx + 1, ch);
    var sub;
    sub, visitedOut := Dfs(a, rows, children, ch, visited);
    assert a[..ch] == was[..ch];
    assert a[..idx + 1] == a[..ch][..idx + 1] == was[..ch][..idx + 1] == was[..idx + 1];
    SettledExtend(was, a[..], rows, visited, visitedOut, idx + 1, ch);
    ClosedExtend(rows, visited, visitedOut, idx + 1, ch);
    Accumulate(cur, Own(rows, idx), UnionNotes(rows, cs[..t]), UnionNotes(rows, cs[..t + 1]), sub);
    cur' := cur + sub;
  }

  /** Every row lies under a visited root once all roots are visited. */
  lemma {:induction false} AllVisited(rows: seq<TableRow>, visited: set<nat>, k: nat)
    requires Forest(rows) && k < |rows|
    requires Closed(rows, visited, 0)
    requires forall m :: 0 <= m < |rows| && rows[m].parent.None? ==> m in visited
    ensures k in visited
    decreases k
  {
    if rows[k].parent.Some? { AllVisited(rows, visited, rows[k].parent.value); }
  }

  /** rollup_note_nos_to_parents: afterwards every row's note_nos is the
      sorted union of its own and all of its descendants' note numbers; no
      other field changes. */
  method RollupNoteNos(a: array<TableRow>)
    requires Forest(a[..])
    modifies a
    ensures forall k :: 0 <= k < a.Length ==>
      a[k] == old(a[k]).(noteNos := SortedOf(Notes(old(a[..]), k)))
  {
    ghost var rows := a[..];
    var children: map<nat, seq<nat>> := map[];
    var k := 0;
    while k < a.Length
      invariant 0 <= k <= a.Length && a[..] == rows
      invariant forall p :: p in children ==> children[p] == ChildList(rows, p, k)
      invariant forall p :: p !in children ==> ChildList(rows, p, k) == []
    {
      assert rows[k] == a[k];
      match a[k].parent {
        case None =>
        case Some(pid) =>
          var prev := if pid in children then children[pid] else [];
          children := children[pid := prev + [a[k].rowIdx]];
      }
      k := k + 1;
    }
    var roots := Roots(a[..], a.Length);
    RootsSpec(rows, a.Length);
    var visited: set<nat> := {};
    var t := 0;
    while t < |roots|
      invariant 0 <= t <= |roots|
      invariant Settled(a[..], rows, visited, 0) && Closed(rows, visited, 0)
      invariant forall u :: 0 <= u < t ==> roots[u] in visited
    {
      var rt := roots[t];
      ghost var v0 := visited;
      ghost var was := a[..];
      var _, vis := Dfs(a, rows, children, rt, visited);
      VisitedGrow(roots, t, v0, vis);
      visited := vis;
      SettledExtend(was, a[..], rows, v0, vis, 0, rt);
      ClosedExtend(rows, v0, vis, 0, rt);
      t := t + 1;
    }
    forall k | 0 <= k < a.Length
      ensures a[k] == rows[k].(noteNos := SortedOf(Notes(rows, k)))
    {
      AllVisited(rows, visited, k);
      assert a[..][k] == a[k];
    }
  }

  /** A parent row with no note marker over a child marked (주7) rolls up to [7]. */
  lemma RollupExample(parent: TableRow, child: TableRow)
    requires parent.noteNos == [] && child.parent == Some(0) && child.noteNos == [7]
    ensures SortedOf(Notes([parent, child], 0)) == [7]
  {
    var rows := [parent, child];
    assert Own(rows, 1) == {7};
    assert Notes(rows, 1) == {7};
    assert ChildNotes(rows, 0, 1) == {7};
    assert Own(rows, 0) == {};
    assert {7} - {7} == {};
    assert SortedOf({7}) == [7] + SortedOf({});
  }
}
