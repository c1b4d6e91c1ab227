// internal/ghdata/respcache_commitci_apply.go: the rewrites of one stored commit-CI document from a delivery.
// A stored JSON document is a datatype value; an RFC 3339 timestamp is its text together with the instant
// time.Parse reads from it, None when the text does not parse.
module CommitCiDocs {
  import opened Options

  datatype Stamp = Stamp(text: string, instant: Option<int>)

  /** One commit status, as a `status` delivery states it and as the commit's history keeps it. */
  datatype Status = Status(sha: string, context: string, state: string, description: Option<string>,
                           targetURL: Option<string>, created: Stamp, updated: Stamp)

  datatype CombinedItem = CombinedItem(context: string, state: string, description: Option<string>,
                                       created: Stamp, updated: Stamp)

  datatype CombinedDoc = CombinedDoc(state: string, sha: string, total: int, statuses: seq<CombinedItem>)

  datatype ListItem = ListItem(context: string, state: string, description: Option<string>,
                               targetURL: Option<string>, created: Stamp, updated: Stamp)

  /** A check run: the id that orders the listing, the commit it belongs to, and everything else it states. */
  datatype Run = Run(id: int, headSHA: string, status: string, rest: string)

  datatype RunsPage = RunsPage(total: int, runs: seq<Run>)

  predicate NotOlder(a: Stamp, b: Stamp) {
    a.instant.Some? && b.instant.Some? && a.instant.value >= b.instant.value
  }

  function AsCombined(s: Status): CombinedItem {
    CombinedItem(s.context, s.state, s.description, s.created, s.updated)
  }

  function AsListed(s: Status): ListItem {
    ListItem(s.context, s.state, s.description, s.targetURL, s.created, s.updated)
  }

  // ---- The combined status ----

  predicate Failing(item: CombinedItem) {
    item.state == "failure" || item.state == "error"
  }

  /** GitHub's documented combined state. */
  ghost function Rollup(items: seq<CombinedItem>): string {
    if exists i :: 0 <= i < |items| && Failing(items[i]) then "failure"
    else if items == [] || exists i :: 0 <= i < |items| && items[i].state == "pending" then "pending"
    else "success"
  }

  method CombinedStatusRollup(items: seq<CombinedItem>) returns (state: string)
    ensures state == Rollup(items)
  {
    if |items| == 0 {
      return "pending";
    }
    var pending := false;
    for i := 0 to |items|
      invariant forall k :: 0 <= k < i ==> !Failing(items[k])
      invariant pending <==> exists k :: 0 <= k < i && items[k].state == "pending"
    {
      if items[i].state == "failure" || items[i].state == "error" {
        assert Failing(items[i]);
        return "failure";
      } else if items[i].state == "pending" {
        pending := true;
      }
    }
    return if pending then "pending" else "success";
  }

  function ItemContext(item: CombinedItem): string { item.context }

  function StatusContext(s: Status): string { s.context }

  /** What is about any other context, in its order. */
  function Others<T>(items: seq<T>, contextOf: T -> string, context: string): (kept: seq<T>)
    ensures |kept| <= |items|
  {
    if items == [] then []
    else (if contextOf(items[0]) == context then [] else [items[0]]) + Others(items[1..], contextOf, context)
  }

  /** The document after the delivery; None is the caller's cue to drop the row. */
  ghost function CombinedAfter(d: CombinedDoc, perPage: int, page: int, up: Status): Option<CombinedDoc> {
    var items := Others(d.statuses, ItemContext, up.context) + [AsCombined(up)];
    if page == 1 && d.sha == up.sha && d.total == |d.statuses| && |items| <= perPage
       && forall i :: 0 <= i < |d.statuses| ==> NotOlder(up.created, d.statuses[i].created)
    then Some(CombinedDoc(Rollup(items), d.sha, |items|, items))
    else None
  }

  method PatchCombinedStatus(d: CombinedDoc, perPage: int, page: int, up: Status) returns (patched: Option<CombinedDoc>)
    ensures patched == CombinedAfter(d, perPage, page, up)
  {
    if page != 1 || d.sha != up.sha || d.total != |d.statuses| {
      return None;
    }
    var kept: seq<CombinedItem> := [];
    assert d.statuses[0..] == d.statuses;
    assert kept + Others(d.statuses, ItemContext, up.context) == Others(d.statuses, ItemContext, up.context);
    for i := 0 to |d.statuses|
      invariant kept + Others(d.statuses[i..], ItemContext, up.context) == Others(d.statuses, ItemContext, up.context)
      invariant forall k :: 0 <= k < i ==> NotOlder(up.created, d.statuses[k].created)
    {
      assert d.statuses[i..][1..] == d.statuses[i + 1..];
      if !NotOlder(up.created, d.statuses[i].created) {
        return None;
      }
      ghost var rest := Others(d.statuses[i + 1..], ItemContext, up.context);
      assert (kept + [d.statuses[i]]) + rest == kept + ([d.statuses[i]] + rest);
      assert kept + ([] + rest) == kept + rest;
      if d.statuses[i].context == up.context {
        continue;
      }
      kept := kept + [d.statuses[i]];
    }
    assert d.statuses[|d.statuses|..] == [] && kept + [] == kept;
    kept := kept + [AsCombined(up)];
    if |kept| > perPage {
      return None;
    }
    var state := CombinedStatusRollup(kept);
    return Some(CombinedDoc(state, d.sha, |kept|, kept));
  }

  // ---- The raw statuses list ----

  ghost predicate Absorbed(items: seq<ListItem>, up: Status) {
    exists i :: 0 <= i < |items| && items[i].context == up.context && items[i].created.text == up.created.text
  }

  ghost function ListAfter(items: seq<ListItem>, perPage: int, page: int, up: Status): Option<seq<ListItem>> {
    var longer := [AsListed(up)] + items;
    if page != 1 || perPage < 1 then None
    else if Absorbed(items, up) then Some(items)
    else if items != [] && !NotOlder(up.created, items[0].created) then None
    else Some(if |longer| > perPage then longer[..perPage] else longer)
  }

  method PatchStatusesList(items: seq<ListItem>, perPage: int, page: int, up: Status)
    returns (patched: Option<seq<ListItem>>)
    ensures patched == ListAfter(items, perPage, page, up)
  {
    if page != 1 || perPage < 1 {
      return None;
    }
    for i := 0 to |items|
      invariant forall k :: 0 <= k < i ==> !(items[k].context == up.context && items[k].created.text == up.created.text)
    {
      if items[i].context == up.context && items[i].created.text == up.created.text {
        return Some(items);
      }
    }
    if |items| > 0 && !NotOlder(up.created, items[0].created) {
      return None;
    }
    var out := [AsListed(up)] + items;
    if |out| > perPage {
      out := out[..perPage];
    }
    return Some(out);
  }

  // ---- The check-runs page ----

  ghost predicate Describes(page: RunsPage, sha: string) {
    page.runs != [] && forall i :: 0 <= i < |page.runs| ==> page.runs[i].headSHA == sha
  }

  method PageDescribesSHA(page: RunsPage, sha: string) returns (yes: bool)
    ensures yes == Describes(page, sha)
  {
    if |page.runs| == 0 {
      return false;
    }
    for i := 0 to |page.runs|
      invariant forall k :: 0 <= k < i ==> page.runs[k].headSHA == sha
    {
      if page.runs[i].headSHA != sha {
        return false;
      }
    }
    return true;
  }

  ghost predicate Lists(runs: seq<Run>, id: int) {
    exists i :: 0 <= i < |runs| && runs[i].id == id
  }

  /** sort.Search over [i, j) for the first run with a smaller id: the halving of the library, on any input. */
  function SearchIn(runs: seq<Run>, id: int, i: nat, j: nat): (at: nat)
    requires i <= j <= |runs|
    ensures i <= at <= j
    decreases j - i
  {
    if i == j then i
    else
      var h := (i + j) / 2;
      if runs[h].id < id then SearchIn(runs, id, i, h) else SearchIn(runs, id, h + 1, j)
  }

  function Replaced(runs: seq<Run>, run: Run): (out: seq<Run>)
    ensures |out| == |runs|
    ensures forall i :: 0 <= i < |runs| ==> out[i] == if runs[i].id == run.id then run else runs[i]
  {
    seq(|runs|, i requires 0 <= i < |runs| => if runs[i].id == run.id then run else runs[i])
  }

  function Inserted(runs: seq<Run>, at: nat, run: Run): (out: seq<Run>)
    requires at <= |runs|
    ensures |out| == |runs| + 1
    ensures forall i :: 0 <= i < |out| ==> out[i] == if i < at then runs[i] else if i == at then run else runs[i - 1]
  {
    seq(|runs| + 1, i requires 0 <= i <= |runs| => if i < at then runs[i] else if i == at then run else runs[i - 1])
  }

  ghost function RunsAfter(p: RunsPage, perPage: int, page: int, run: Run): Option<RunsPage> {
    if page != 1 || p.total != |p.runs| || |p.runs| > perPage then None
    else if Lists(p.runs, run.id) then Some(RunsPage(p.total, Replaced(p.runs, run)))
    else if !Describes(p, run.headSHA) || |p.runs| + 1 > perPage then None
    else Some(RunsPage(|p.runs| + 1, Inserted(p.runs, SearchIn(p.runs, run.id, 0, |p.runs|), run)))
  }

  method SortSearch(runs: seq<Run>, id: int) returns (at: nat)
    ensures at == SearchIn(runs, id, 0, |runs|)
  {
    var i, j := 0, |runs|;
    while i < j
      invariant 0 <= i <= j <= |runs|
      invariant SearchIn(runs, id, i, j) == SearchIn(runs, id, 0, |runs|)
    {
      var h := (i + j) / 2;
      if !(runs[h].id < id) {
        i := h + 1;
      } else {
        j := h;
      }
    }
    at := i;
  }

  method InsertCheckRun(p: RunsPage, perPage: int, run: Run) returns (inserted: Option<RunsPage>)
    requires !Lists(p.runs, run.id) && p.total == |p.runs| && |p.runs| <= perPage
    ensures inserted == RunsAfter(p, perPage, 1, run)
  {
    var describes := PageDescribesSHA(p, run.headSHA);
    if !describes {
      return None;
    }
    if |p.runs| + 1 > perPage {
      return None;
    }
    var at := SortSearch(p.runs, run.id);
    var runs := Inserted(p.runs, at, run);
    return Some(RunsPage(|runs|, runs));
  }

  method PatchCheckRunsPage(p: RunsPage, perPage: int, page: int, run: Run) returns (patched: Option<RunsPage>)
    ensures patched == RunsAfter(p, perPage, page, run)
  {
    if page != 1 {
      return None;
    }
    if p.total != |p.runs| || |p.runs| > perPage {
      return None;
    }
    var runs, found := p.runs, false;
    for i := 0 to |runs|
      invariant |runs| == |p.runs| && runs[i..] == p.runs[i..]
      invariant forall k :: 0 <= k < i ==> runs[k] == if p.runs[k].id == run.id then run else p.runs[k]
      invariant found <==> exists k :: 0 <= k < i && p.runs[k].id == run.id
    {
      assert runs[i] == runs[i..][0] == p.runs[i];
      if runs[i].id != run.id {
        continue;
      }
      runs := runs[i := run];
      found := true;
    }
    if !found {
      patched := InsertCheckRun(p, perPage, run);
      return;
    }
    assert runs == Replaced(p.runs, run);
    return Some(RunsPage(p.total, runs));
  }
}
