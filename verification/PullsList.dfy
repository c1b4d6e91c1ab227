// internal/api/respcache_pulls.go: serving GET /repos/{owner}/{repo}/pulls from the stored rows. Timestamps are the
// whole seconds of their keys (Rfc3339 shows text order agrees).
module PullsList {
  import opened Options
  import opened PullRows
  import opened PullTruth

  /** The parsed query; the head filter is already cut at its colon, empty filters are None. */
  datatype Shape = Shape(perPage: nat, head: Option<Head>, base: Option<string>, byUpdated: bool, ascending: bool)

  datatype Head = Head(owner: string, branch: string)

  // ---- Filtering ----

  function Lower(c: char): char { if 'A' <= c <= 'Z' then c + 32 as char else c }

  /** strings.EqualFold on ASCII. */
  predicate EqualFold(a: string, b: string) {
    |a| == |b| && forall i :: 0 <= i < |a| ==> Lower(a[i]) == Lower(b[i])
  }

  /** The part of "owner/name" before the first slash, None without one. */
  function OwnerOf(fullName: string): (owner: Option<string>) {
    if fullName == "" then None
    else if fullName[0] == '/' then Some("")
    else
      var rest := OwnerOf(fullName[1..]);
      if rest.None? then None else Some([fullName[0]] + rest.value)
  }

  predicate Matches(pr: Row, head: Option<Head>, base: Option<string>) {
    && (head.Some? ==>
          && pr.headRef == Some(head.value.branch) && pr.headRepo.Some?
          && OwnerOf(pr.headRepo.value).Some? && EqualFold(OwnerOf(pr.headRepo.value).value, head.value.owner))
    && (base.Some? ==> pr.baseRef == base)
  }

  function Selected(rows: seq<Row>, head: Option<Head>, base: Option<string>): (out: seq<Row>)
    ensures |out| <= |rows|
  {
    if rows == [] then []
    else Selected(rows[..|rows| - 1], head, base)
         + (if Matches(rows[|rows| - 1], head, base) then [rows[|rows| - 1]] else [])
  }

  /** filterPullRows. */
  method FilterPullRows(rows: seq<Row>, head: Option<Head>, base: Option<string>) returns (out: seq<Row>)
    ensures out == Selected(rows, head, base)
  {
    if head.None? && base.None? {
      SelectedAll(rows);
      return rows;
    }
    out := [];
    for i := 0 to |rows|
      invariant out == Selected(rows[..i], head, base)
    {
      assert rows[..i + 1][..i] == rows[..i];
      var pr := rows[i];
      if head.Some? {
        if pr.headRef != Some(head.value.branch) {
          continue;
        }
        if pr.headRepo.None? {
          continue;
        }
        var owner := OwnerOf(pr.headRepo.value);
        if owner.None? || !EqualFold(owner.value, head.value.owner) {
          continue;
        }
      }
      if base.Some? {
        if pr.baseRef != base {
          continue;
        }
      }
      out := out + [pr];
    }
    assert rows[..|rows|] == rows;
  }

  lemma {:induction false} SelectedAll(rows: seq<Row>)
    ensures Selected(rows, None, None) == rows
  {
    if rows != [] {
      SelectedAll(rows[..|rows| - 1]);
      assert rows == rows[..|rows| - 1] + [rows[|rows| - 1]];
    }
  }

  lemma {:induction false} OwnerOfSlash(owner: string, rest: string)
    requires '/' !in owner
    ensures OwnerOf((owner + "/") + rest) == Some(owner)
  {
    var s := (owner + "/") + rest;
    if owner == [] {
      assert s[0] == '/';
    } else {
      assert s[0] == owner[0] != '/' && s[1..] == (owner[1..] + "/") + rest;
      OwnerOfSlash(owner[1..], rest);
      assert owner == [owner[0]] + owner[1..];
    }
  }

  lemma {:induction false} OwnerOfPlain(name: string)
    requires '/' !in name
    ensures OwnerOf(name) == None
  {
    if name != [] {
      OwnerOfPlain(name[1..]);
    }
  }

  /** The owner is what stands before the first slash; letter case does not matter in it, and nothing else is folded. */
  lemma HeadMatchesIff(pr: Row, head: Head, owner: string, rest: string)
    requires '/' !in owner && pr.headRepo == Some((owner + "/") + rest)
    ensures Matches(pr, Some(head), None) <==>
            && pr.headRef == Some(head.branch) && |owner| == |head.owner|
            && forall i :: 0 <= i < |owner| ==>
                 || owner[i] == head.owner[i]
                 || ('A' <= owner[i] <= 'Z' && head.owner[i] == owner[i] + 32 as char)
                 || ('A' <= head.owner[i] <= 'Z' && owner[i] == head.owner[i] + 32 as char)
  {
    OwnerOfSlash(owner, rest);
  }

  /** A deleted fork, or a name without an owner, matches no owner; the base is compared as it is. */
  lemma OtherMatches(pr: Row, head: Head, base: string)
    ensures pr.headRepo.None? || '/' !in pr.headRepo.value ==> !Matches(pr, Some(head), None)
    ensures Matches(pr, None, Some(base)) <==> pr.baseRef == Some(base)
    ensures Matches(pr, Some(head), Some(base)) <==> Matches(pr, Some(head), None) && pr.baseRef == Some(base)
  {
    if pr.headRepo.Some? && '/' !in pr.headRepo.value {
      OwnerOfPlain(pr.headRepo.value);
    }
  }

  // ---- Sorting ----

  function SortKey(pr: Row, byUpdated: bool): int {
    if byUpdated then (if pr.updated.None? then -1 else pr.updated.value) else pr.created
  }

  /** The comparison of sortPullRows: the key, then the number, each in the asked direction. */
  predicate Precedes(a: Row, b: Row, byUpdated: bool, ascending: bool) {
    var x, y := SortKey(a, byUpdated), SortKey(b, byUpdated);
    if x != y then (if ascending then x < y else x > y)
    else if ascending then a.number < b.number else a.number > b.number
  }

  ghost predicate Ordered(rows: seq<Row>, byUpdated: bool, ascending: bool) {
    forall i, j :: 0 <= i < j < |rows| ==> !Precedes(rows[j], rows[i], byUpdated, ascending)
  }

  /** slices.SortStableFunc: insertion of each row behind the ones it does not precede. */
  function Insert(sorted: seq<Row>, pr: Row, byUpdated: bool, ascending: bool): seq<Row> {
    if sorted == [] || !Precedes(pr, sorted[|sorted| - 1], byUpdated, ascending) then sorted + [pr]
    else Insert(sorted[..|sorted| - 1], pr, byUpdated, ascending) + [sorted[|sorted| - 1]]
  }

  function Sorted(rows: seq<Row>, byUpdated: bool, ascending: bool): seq<Row> {
    if rows == [] then []
    else Insert(Sorted(rows[..|rows| - 1], byUpdated, ascending), rows[|rows| - 1], byUpdated, ascending)
  }

  /** The table's primary key. */
  ghost predicate DistinctNumbers(rows: seq<Row>) {
    forall i, j :: 0 <= i < j < |rows| ==> rows[i].number != rows[j].number
  }

  ghost predicate SameRows(a: seq<Row>, b: seq<Row>) {
    forall pr :: pr in a <==> pr in b
  }

  lemma InsertedBefore(sorted: seq<Row>, pr: Row, r: Row, byUpdated: bool, ascending: bool)
    requires sorted != [] && Ordered(sorted, byUpdated, ascending) && DistinctNumbers(sorted)
    requires sorted[|sorted| - 1].number != pr.number && Precedes(pr, sorted[|sorted| - 1], byUpdated, ascending)
    requires r == pr || r in sorted[..|sorted| - 1]
    ensures !Precedes(sorted[|sorted| - 1], r, byUpdated, ascending) && r.number != sorted[|sorted| - 1].number
  {
  }

  lemma {:induction false} InsertOrders(sorted: seq<Row>, pr: Row, byUpdated: bool, ascending: bool)
    requires Ordered(sorted, byUpdated, ascending) && DistinctNumbers(sorted)
    requires forall r :: r in sorted ==> r.number != pr.number
    ensures var out := Insert(sorted, pr, byUpdated, ascending);
            Ordered(out, byUpdated, ascending) && DistinctNumbers(out) && |out| == |sorted| + 1
            && forall r :: r in out <==> r in sorted || r == pr
  {
    if sorted != [] && Precedes(pr, sorted[|sorted| - 1], byUpdated, ascending) {
      var n := |sorted| - 1;
      var front := Insert(sorted[..n], pr, byUpdated, ascending);
      assert sorted == sorted[..n] + [sorted[n]];
      InsertOrders(sorted[..n], pr, byUpdated, ascending);
      forall i | 0 <= i < |front|
        ensures !Precedes(sorted[n], front[i], byUpdated, ascending) && front[i].number != sorted[n].number
      {
        InsertedBefore(sorted, pr, front[i], byUpdated, ascending);
      }
    }
  }

  lemma {:induction false} SortedOrders(rows: seq<Row>, byUpdated: bool, ascending: bool)
    requires DistinctNumbers(rows)
    ensures var out := Sorted(rows, byUpdated, ascending);
            Ordered(out, byUpdated, ascending) && DistinctNumbers(out) && |out| == |rows| && SameRows(out, rows)
  {
    if rows != [] {
      var n := |rows| - 1;
      assert rows == rows[..n] + [rows[n]];
      SortedOrders(rows[..n], byUpdated, ascending);
      InsertOrders(Sorted(rows[..n], byUpdated, ascending), rows[n], byUpdated, ascending);
    }
  }

  /** What the four orders are: by creation or by last update, oldest or newest first, the number breaking ties in the
      same direction; a PR without an update time counts as updated before all others. */
  lemma SortedReads(rows: seq<Row>, i: nat, j: nat)
    requires DistinctNumbers(rows) && i < j < |rows|
    ensures var up := Sorted(rows, false, true);
            && |up| == |rows|
            && (up[i].created < up[j].created || (up[i].created == up[j].created && up[i].number < up[j].number))
    ensures var down := Sorted(rows, false, false);
            && |down| == |rows|
            && (down[i].created > down[j].created
                || (down[i].created == down[j].created && down[i].number > down[j].number))
    ensures var up := Sorted(rows, true, true);
            |up| == |rows| && Stamped(up[i]) && Stamped(up[j]) ==> UpdatedBefore(up[i], up[j])
    ensures var down := Sorted(rows, true, false);
            |down| == |rows| && Stamped(down[i]) && Stamped(down[j]) ==> UpdatedBefore(down[j], down[i])
  {
    SortedOrders(rows, false, true);
    SortedOrders(rows, false, false);
    SortedOrders(rows, true, true);
    SortedOrders(rows, true, false);
  }

  /** A stored time is a non-negative second. */
  predicate Stamped(pr: Row) { pr.updated.Some? ==> pr.updated.value >= 0 }

  predicate UpdatedBefore(a: Row, b: Row) {
    if a.updated == b.updated then a.number < b.number
    else b.updated.Some? && (a.updated.Some? ==> a.updated.value < b.updated.value)
  }

  lemma OrderedHeads(a: seq<Row>, b: seq<Row>, byUpdated: bool, ascending: bool)
    requires a != [] && b != [] && SameRows(a, b) && DistinctNumbers(a)
    requires Ordered(a, byUpdated, ascending) && Ordered(b, byUpdated, ascending)
    ensures a[0] == b[0]
  {
    assert a[0] in b && b[0] in a;
    var i :| 0 <= i < |b| && b[i] == a[0];
    var j :| 0 <= j < |a| && a[j] == b[0];
    assert i > 0 ==> !Precedes(b[i], b[0], byUpdated, ascending);
    assert j > 0 ==> !Precedes(a[j], a[0], byUpdated, ascending);
  }

  lemma EmptyTogether(a: seq<Row>, b: seq<Row>)
    requires SameRows(a, b)
    ensures a == [] <==> b == []
  {
    if a != [] {
      assert a[0] in b;
    }
    if b != [] {
      assert b[0] in a;
    }
  }

  /** With distinct numbers an arrangement in order is the only one: no sorting routine and no stored order matters. */
  lemma {:induction false} OrderedUnique(a: seq<Row>, b: seq<Row>, byUpdated: bool, ascending: bool)
    requires Ordered(a, byUpdated, ascending) && Ordered(b, byUpdated, ascending)
    requires SameRows(a, b) && DistinctNumbers(a) && DistinctNumbers(b)
    ensures a == b
    decreases |a|
  {
    EmptyTogether(a, b);
    if a != [] {
      OrderedHeads(a, b, byUpdated, ascending);
      var x, y := a[1..], b[1..];
      assert a == [a[0]] + x && b == [b[0]] + y;
      forall r ensures r in x <==> r in y {
        assert r in x ==> r.number != a[0].number;
        assert r in y ==> r.number != b[0].number;
        assert r in a <==> r in b;
      }
      OrderedUnique(x, y, byUpdated, ascending);
    }
  }

  /** The answer does not depend on the order the rows were read in. */
  lemma SortIgnoresStoredOrder(a: seq<Row>, b: seq<Row>, byUpdated: bool, ascending: bool)
    requires SameRows(a, b) && DistinctNumbers(a) && DistinctNumbers(b)
    ensures Sorted(a, byUpdated, ascending) == Sorted(b, byUpdated, ascending)
  {
    SortedOrders(a, byUpdated, ascending);
    SortedOrders(b, byUpdated, ascending);
    OrderedUnique(Sorted(a, byUpdated, ascending), Sorted(b, byUpdated, ascending), byUpdated, ascending);
  }

  function Reversed(rows: seq<Row>): (out: seq<Row>)
    ensures |out| == |rows|
    ensures forall i :: 0 <= i < |rows| ==> out[i] == rows[|rows| - 1 - i]
  {
    seq(|rows|, i requires 0 <= i < |rows| => rows[|rows| - 1 - i])
  }

  lemma ReversedSame(rows: seq<Row>)
    ensures SameRows(Reversed(rows), rows)
  {
    forall pr | pr in rows ensures pr in Reversed(rows) {
      var i :| 0 <= i < |rows| && rows[i] == pr;
      assert Reversed(rows)[|rows| - 1 - i] == pr;
    }
  }

  /** Descending is exactly ascending read backwards. */
  lemma DescendingReversesAscending(rows: seq<Row>, byUpdated: bool)
    requires DistinctNumbers(rows)
    ensures Sorted(rows, byUpdated, false) == Reversed(Sorted(rows, byUpdated, true))
  {
    var up, down := Sorted(rows, byUpdated, true), Sorted(rows, byUpdated, false);
    SortedOrders(rows, byUpdated, true);
    SortedOrders(rows, byUpdated, false);
    ReversedSame(up);
    forall i, j | 0 <= i < j < |up| ensures !Precedes(Reversed(up)[j], Reversed(up)[i], byUpdated, false) {
      assert !Precedes(up[|up| - 1 - i], up[|up| - 1 - j], byUpdated, true);
    }
    OrderedUnique(down, Reversed(up), byUpdated, false);
  }

  lemma {:induction false} SelectedMembers(rows: seq<Row>, head: Option<Head>, base: Option<string>)
    ensures forall pr :: pr in Selected(rows, head, base) <==> pr in rows && Matches(pr, head, base)
  {
    if rows != [] {
      SelectedMembers(rows[..|rows| - 1], head, base);
      assert rows == rows[..|rows| - 1] + [rows[|rows| - 1]];
    }
  }

  lemma {:induction false} SelectedDistinct(rows: seq<Row>, head: Option<Head>, base: Option<string>)
    requires DistinctNumbers(rows)
    ensures DistinctNumbers(Selected(rows, head, base))
  {
    if rows != [] {
      var n := |rows| - 1;
      SelectedDistinct(rows[..n], head, base);
      SelectedMembers(rows[..n], head, base);
      var front := Selected(rows[..n], head, base);
      forall i | 0 <= i < |front| ensures front[i].number != rows[n].number {
        assert front[i] in rows[..n];
      }
    }
  }

  lemma {:induction false} SelectedOrdered(rows: seq<Row>, head: Option<Head>, base: Option<string>,
                                           byUpdated: bool, ascending: bool)
    requires Ordered(rows, byUpdated, ascending)
    ensures Ordered(Selected(rows, head, base), byUpdated, ascending)
  {
    if rows != [] {
      var n := |rows| - 1;
      SelectedOrdered(rows[..n], head, base, byUpdated, ascending);
      SelectedMembers(rows[..n], head, base);
      var front := Selected(rows[..n], head, base);
      forall i | 0 <= i < |front| ensures !Precedes(rows[n], front[i], byUpdated, ascending) {
        assert front[i] in rows[..n];
      }
    }
  }

  /** Filtering and sorting may be done in either order. */
  lemma FilterCommutesWithSort(rows: seq<Row>, s: Shape)
    requires DistinctNumbers(rows)
    ensures Selected(Sorted(rows, s.byUpdated, s.ascending), s.head, s.base)
         == Sorted(Selected(rows, s.head, s.base), s.byUpdated, s.ascending)
  {
    var sorted, kept := Sorted(rows, s.byUpdated, s.ascending), Selected(rows, s.head, s.base);
    SelectedDistinct(rows, s.head, s.base);
    SortedOrders(rows, s.byUpdated, s.ascending);
    SortedOrders(kept, s.byUpdated, s.ascending);
    SelectedOrdered(sorted, s.head, s.base, s.byUpdated, s.ascending);
    SelectedMembers(sorted, s.head, s.base);
    SelectedMembers(rows, s.head, s.base);
    SelectedDistinct(sorted, s.head, s.base);
    OrderedUnique(Selected(sorted, s.head, s.base), Sorted(kept, s.byUpdated, s.ascending), s.byUpdated, s.ascending);
  }

  // ---- The hit ----

  /** The filtered open set in the asked order. */
  ghost predicate WholeList(all: seq<Row>, open: set<Row>, s: Shape) {
    && DistinctNumbers(all) && Ordered(all, s.byUpdated, s.ascending)
    && (forall pr :: pr in all <==> pr in open && Matches(pr, s.head, s.base))
  }

  /** GitHub's first page of it. */
  ghost predicate FirstPage(page: seq<Row>, open: set<Row>, s: Shape) {
    exists all: seq<Row> :: WholeList(all, open, s) && page == if |all| <= s.perPage then all else all[..s.perPage]
  }

  /** The list arm of cachedPullsList: the rows to serve, or None for a miss. `rows` is the table read, in any order. */
  method ServeFromState(t: Truth, rows: seq<Row>, s: Shape, now: int) returns (served: Option<seq<Row>>)
    requires DistinctNumbers(rows) && (set pr | pr in rows) == t.rows.Values
    ensures served.Some? <==> ListFresh(t, now) && (forall pr :: pr in t.rows.Values ==> RestComplete(pr))
                              && |Selected(rows, s.head, s.base)| < s.perPage
    ensures served.Some? ==> FirstPage(served.value, t.rows.Values, s)
  {
    if !ListFresh(t, now) {
      return None;
    }
    for i := 0 to |rows|
      invariant forall k :: 0 <= k < i ==> RestComplete(rows[k])
    {
      if !RestComplete(rows[i]) {
        assert rows[i] in (set pr | pr in rows);
        return None;
      }
    }
    forall pr | pr in t.rows.Values ensures RestComplete(pr) {
      assert pr in (set x | x in rows);
    }
    var filtered := FilterPullRows(rows, s.head, s.base);
    var sorted := Sorted(filtered, s.byUpdated, s.ascending);
    SelectedDistinct(rows, s.head, s.base);
    SortedOrders(filtered, s.byUpdated, s.ascending);
    if |sorted| < s.perPage {
      HitIsGitHubsPage(rows, s, sorted);
      assert (set pr | pr in rows) == t.rows.Values;
      return Some(sorted);
    }
    return None;
  }

  lemma SortedSelectionIsWhole(rows: seq<Row>, s: Shape)
    requires DistinctNumbers(rows)
    ensures WholeList(Sorted(Selected(rows, s.head, s.base), s.byUpdated, s.ascending), (set pr | pr in rows), s)
    ensures |Sorted(Selected(rows, s.head, s.base), s.byUpdated, s.ascending)| == |Selected(rows, s.head, s.base)|
  {
    var kept := Selected(rows, s.head, s.base);
    SelectedMembers(rows, s.head, s.base);
    SelectedDistinct(rows, s.head, s.base);
    SortedOrders(kept, s.byUpdated, s.ascending);
  }

  lemma WholeListUnique(a: seq<Row>, b: seq<Row>, open: set<Row>, s: Shape)
    requires WholeList(a, open, s) && WholeList(b, open, s)
    ensures a == b
  {
    assert SameRows(a, b);
    OrderedUnique(a, b, s.byUpdated, s.ascending);
  }

  /** When the rows are GitHub's open set, what is served is GitHub's page, and the only page GitHub could send. */
  lemma HitIsGitHubsPage(rows: seq<Row>, s: Shape, page: seq<Row>)
    requires DistinctNumbers(rows) && |Selected(rows, s.head, s.base)| < s.perPage
    ensures FirstPage(page, (set pr | pr in rows), s)
            <==> page == Sorted(Selected(rows, s.head, s.base), s.byUpdated, s.ascending)
  {
    var hit := Sorted(Selected(rows, s.head, s.base), s.byUpdated, s.ascending);
    var open := set pr | pr in rows;
    SortedSelectionIsWhole(rows, s);
    if FirstPage(page, open, s) {
      var all: seq<Row> :| WholeList(all, open, s) && page == if |all| <= s.perPage then all else all[..s.perPage];
      WholeListUnique(hit, all, open, s);
    }
  }
}
