// What the rewrites of CommitCiDocs are for: a rewritten document is the one a fresh fetch would store.
// Upstream state is a commit's append-only status history, oldest first, or its set of check runs by id.
module CommitCiRefinement {
  import opened Options
  import opened CommitCiDocs

  // ---- The commit's status history ----

  ghost predicate Mentions(h: seq<Status>, context: string) {
    exists i :: 0 <= i < |h| && h[i].context == context
  }

  /** The latest status of each context, oldest first. */
  ghost function Latest(h: seq<Status>): (l: seq<Status>)
    ensures |l| <= |h|
  {
    if h == [] then []
    else (if Mentions(h[1..], h[0].context) then [] else [h[0]]) + Latest(h[1..])
  }

  ghost function Items(l: seq<Status>): (items: seq<CombinedItem>)
    ensures |items| == |l|
    ensures forall i :: 0 <= i < |l| ==> items[i] == AsCombined(l[i])
  {
    seq(|l|, i requires 0 <= i < |l| => AsCombined(l[i]))
  }

  ghost function Min(a: int, b: int): int { if a <= b then a else b }

  /** The first page of the combined status, as a fetch of this size stores it. */
  ghost function FetchCombined(h: seq<Status>, sha: string, perPage: nat): CombinedDoc {
    var items := Items(Latest(h));
    CombinedDoc(Rollup(items), sha, |items|, items[..Min(perPage, |items|)])
  }

  /** The first page of the raw list: the newest statuses first. */
  ghost function FetchList(h: seq<Status>, perPage: nat): (items: seq<ListItem>)
    ensures |items| == Min(perPage, |h|)
    ensures forall i :: 0 <= i < |items| ==> items[i] == AsListed(h[|h| - 1 - i])
  {
    seq(Min(perPage, |h|), i requires 0 <= i < Min(perPage, |h|) => AsListed(h[|h| - 1 - i]))
  }

  lemma MentionsAppend(h: seq<Status>, s: Status, context: string)
    ensures Mentions(h + [s], context) <==> Mentions(h, context) || s.context == context
  {
    assert (h + [s])[|h|] == s;
    forall i | 0 <= i < |h| ensures (h + [s])[i] == h[i] {}
  }

  /** Posting a status removes its context's previous entry and puts the new one at the end. */
  lemma {:induction false} LatestAppend(h: seq<Status>, s: Status)
    ensures Latest(h + [s]) == Others(Latest(h), StatusContext, s.context) + [s]
  {
    if h == [] {
      assert (h + [s])[1..] == [];
    } else {
      assert (h + [s])[1..] == h[1..] + [s];
      LatestAppend(h[1..], s);
      MentionsAppend(h[1..], s, h[0].context);
      var rest := Latest(h[1..]);
      if !Mentions(h[1..], h[0].context) {
        assert ([h[0]] + rest)[1..] == rest;
      } else {
        assert [] + rest == rest;
      }
    }
  }

  lemma {:induction false} OthersOfItems(l: seq<Status>, context: string)
    ensures Others(Items(l), ItemContext, context) == Items(Others(l, StatusContext, context))
  {
    if l != [] {
      OthersOfItems(l[1..], context);
      assert Items(l)[1..] == Items(l[1..]);
      var rest := Others(l[1..], StatusContext, context);
      assert Items([l[0]] + rest) == [AsCombined(l[0])] + Items(rest);
      assert [] + rest == rest && [] + Items(rest) == Items(rest);
    }
  }

  lemma ItemsAppend(l: seq<Status>, s: Status)
    ensures Items(l + [s]) == Items(l) + [AsCombined(s)]
  {
  }

  /** The patched combined status is exactly what a fetch of the longer history stores. The rewrite happens when
      the stored page holds every context, the new one still fits, and no listed status is newer. */
  lemma CombinedRefinesFetch(h: seq<Status>, perPage: nat, s: Status)
    ensures var r := CombinedAfter(FetchCombined(h, s.sha, perPage), perPage, 1, s);
            (r.Some? <==> |Latest(h)| <= perPage && |Latest(h + [s])| <= perPage
                          && forall i :: 0 <= i < |Latest(h)| ==> NotOlder(s.created, Latest(h)[i].created))
            && (r.Some? ==> r.value == FetchCombined(h + [s], s.sha, perPage))
  {
    var d := FetchCombined(h, s.sha, perPage);
    var l := Latest(h);
    LatestAppend(h, s);
    OthersOfItems(l, s.context);
    ItemsAppend(Others(l, StatusContext, s.context), s);
    if |l| <= perPage {
      assert d.statuses == Items(l);
      assert forall i :: 0 <= i < |l| ==> d.statuses[i].created == l[i].created;
      var items := Items(Latest(h + [s]));
      assert items[..|items|] == items;
    }
  }

  // ---- What the rewritten documents say ----

  /** Nothing later in the history is about the same context. */
  ghost predicate NewestAt(h: seq<Status>, i: nat) {
    i < |h| && forall j :: i < j < |h| ==> h[j].context != h[i].context
  }

  lemma {:induction false} LatestMembers(h: seq<Status>)
    ensures forall i: nat :: NewestAt(h, i) ==> h[i] in Latest(h)
    ensures forall s :: s in Latest(h) ==> exists i: nat :: NewestAt(h, i) && h[i] == s
  {
    if h != [] {
      var rest := h[1..];
      LatestMembers(rest);
      forall i: nat | NewestAt(h, i) ensures h[i] in Latest(h) {
        if i > 0 {
          assert forall j :: i - 1 < j < |rest| ==> rest[j] == h[j + 1];
          assert NewestAt(rest, i - 1);
        } else {
          assert forall j :: 0 <= j < |rest| ==> rest[j] == h[j + 1];
        }
      }
      forall s | s in Latest(h) ensures exists i: nat :: NewestAt(h, i) && h[i] == s {
        if s in Latest(rest) {
          var i: nat :| NewestAt(rest, i) && rest[i] == s;
          assert forall j :: i + 1 < j < |h| ==> h[j] == rest[j - 1];
          assert NewestAt(h, i + 1);
        } else {
          assert forall j :: 1 <= j < |h| ==> h[j] == rest[j - 1];
          assert NewestAt(h, 0);
        }
      }
    }
  }

  /** Some context's latest status has this state. */
  ghost predicate LatestSays(h: seq<Status>, state: string) {
    exists i: nat :: NewestAt(h, i) && h[i].state == state
  }

  lemma LatestSaysAt(h: seq<Status>, state: string)
    ensures LatestSays(h, state) <==> exists k :: 0 <= k < |Items(Latest(h))| && Items(Latest(h))[k].state == state
  {
    LatestMembers(h);
    var l, items := Latest(h), Items(Latest(h));
    if LatestSays(h, state) {
      var i: nat :| NewestAt(h, i) && h[i].state == state;
      var k :| 0 <= k < |l| && l[k] == h[i];
      assert items[k].state == state;
    }
    if k :| 0 <= k < |items| && items[k].state == state {
      assert l[k] in Latest(h);
      var i: nat :| NewestAt(h, i) && h[i] == l[k];
      assert h[i].state == items[k].state;
    }
  }

  lemma RollupOfLatest(h: seq<Status>)
    requires h != []
    ensures Rollup(Items(Latest(h)))
         == if LatestSays(h, "failure") || LatestSays(h, "error") then "failure"
            else if LatestSays(h, "pending") then "pending" else "success"
  {
    LatestSaysAt(h, "failure");
    LatestSaysAt(h, "error");
    LatestSaysAt(h, "pending");
    LatestFromHistory(h);
  }

  lemma {:induction false} OthersMembers<T>(items: seq<T>, contextOf: T -> string, context: string)
    ensures forall x :: x in Others(items, contextOf, context) <==> x in items && contextOf(x) != context
  {
    if items != [] {
      OthersMembers(items[1..], contextOf, context);
      assert items == [items[0]] + items[1..];
    }
  }

  /** The rewritten combined status in GitHub's terms: failure if the latest status of some context failed or errored,
      else pending if one is pending, else success; the delivery's own words as the last entry; and every other entry as
      it was stored. */
  lemma CombinedSaysWhatHappened(h: seq<Status>, perPage: nat, s: Status)
    requires CombinedAfter(FetchCombined(h, s.sha, perPage), perPage, 1, s).Some?
    ensures var d, all := CombinedAfter(FetchCombined(h, s.sha, perPage), perPage, 1, s).value, h + [s];
            && d.state == (if LatestSays(all, "failure") || LatestSays(all, "error") then "failure"
                           else if LatestSays(all, "pending") then "pending" else "success")
            && d.sha == s.sha && d.total == |d.statuses| > 0
    ensures var stored := FetchCombined(h, s.sha, perPage).statuses;
            var items := CombinedAfter(FetchCombined(h, s.sha, perPage), perPage, 1, s).value.statuses;
            var last := items[|items| - 1];
            && last.context == s.context && last.state == s.state && last.description == s.description
            && last.created == s.created && last.updated == s.updated
            && forall x :: x in items[..|items| - 1] <==> x in stored && x.context != s.context
  {
    var stored := FetchCombined(h, s.sha, perPage).statuses;
    CombinedRefinesFetch(h, perPage, s);
    RollupOfLatest(h + [s]);
    OthersMembers(stored, ItemContext, s.context);
    var items := Others(stored, ItemContext, s.context) + [AsCombined(s)];
    assert items[..|items| - 1] == Others(stored, ItemContext, s.context);
  }

  /** What the combined rewrite refuses, whatever the page holds: another page than the first, another commit, a page
      that does not hold every context, more contexts than fit, and a delivery older than any listed status or without
      a readable time. */
  lemma CombinedRefuses(d: CombinedDoc, perPage: int, page: int, s: Status, x: CombinedItem)
    ensures page != 1 || d.sha != s.sha || d.total != |d.statuses| ==> CombinedAfter(d, perPage, page, s).None?
    ensures |d.statuses| >= perPage && (forall i :: 0 <= i < |d.statuses| ==> d.statuses[i].context != s.context) ==>
              CombinedAfter(d, perPage, page, s).None?
    ensures x in d.statuses && (x.created.instant.None? || s.created.instant.None?
                                || s.created.instant.value < x.created.instant.value) ==>
              CombinedAfter(d, perPage, page, s).None?
  {
    if forall i :: 0 <= i < |d.statuses| ==> d.statuses[i].context != s.context {
      OthersKeepsAll(d.statuses, s.context);
    }
  }

  lemma {:induction false} OthersKeepsAll(items: seq<CombinedItem>, context: string)
    requires forall i :: 0 <= i < |items| ==> items[i].context != context
    ensures Others(items, ItemContext, context) == items
  {
    if items != [] {
      OthersKeepsAll(items[1..], context);
    }
  }

  /** What the raw list's rewrite refuses, and what it leaves as it is. */
  lemma ListRefuses(items: seq<ListItem>, perPage: int, page: int, s: Status, x: ListItem)
    ensures page != 1 || perPage < 1 ==> ListAfter(items, perPage, page, s).None?
    ensures page == 1 && perPage >= 1 && x in items && x.context == s.context && x.created.text == s.created.text ==>
              ListAfter(items, perPage, page, s) == Some(items)
    ensures items != [] && !(exists i :: 0 <= i < |items| && items[i].context == s.context
                                         && items[i].created.text == s.created.text)
            && (items[0].created.instant.None? || s.created.instant.None?
                || s.created.instant.value < items[0].created.instant.value) ==>
              ListAfter(items, perPage, page, s).None?
  {
  }

  /** A commit without statuses is pending, as GitHub has it. */
  lemma NoStatusIsPending(sha: string, perPage: nat)
    ensures FetchCombined([], sha, perPage).state == "pending"
  {
  }

  /** A rewritten raw list is the delivery's own words in front of what was stored. */
  lemma ListSaysWhatHappened(items: seq<ListItem>, perPage: int, page: int, s: Status)
    requires ListAfter(items, perPage, page, s).Some? && ListAfter(items, perPage, page, s).value != items
    ensures var out := ListAfter(items, perPage, page, s).value;
            && out != [] && |out| <= perPage && |out| <= |items| + 1 && (|items| < perPage ==> |out| == |items| + 1)
            && out[0].context == s.context && out[0].state == s.state && out[0].description == s.description
            && out[0].targetURL == s.targetURL && out[0].created == s.created && out[0].updated == s.updated
            && forall i :: 1 <= i < |out| ==> out[i] == items[i - 1]
  {
  }

  /** A history in posting order, with no context posted twice under one timestamp. */
  ghost predicate Chronological(h: seq<Status>) {
    && (forall i :: 0 <= i < |h| ==> h[i].created.instant.Some?)
    && (forall i, j :: 0 <= i < j < |h| ==> h[i].created.instant.value <= h[j].created.instant.value)
    && (forall i, j :: 0 <= i < j < |h| ==> !(h[i].context == h[j].context && h[i].created.text == h[j].created.text))
  }

  lemma {:induction false} LatestFromHistory(h: seq<Status>)
    ensures forall i :: 0 <= i < |Latest(h)| ==> Latest(h)[i] in h
    ensures h != [] ==> Latest(h) != [] && Latest(h)[|Latest(h)| - 1] == h[|h| - 1]
  {
    if h != [] {
      LatestFromHistory(h[1..]);
      if |h| == 1 {
        assert !Mentions(h[1..], h[0].context);
      }
    }
  }

  lemma NewestStaysLast(h: seq<Status>)
    requires h != []
    ensures var s := h[|h| - 1]; Others(Latest(h), StatusContext, s.context) + [s] == Latest(h)
  {
    var front, s := h[..|h| - 1], h[|h| - 1];
    assert h == front + [s];
    LatestAppend(front, s);
    var rest := Others(Latest(front), StatusContext, s.context);
    DropTwice(Latest(front), s.context, s);
    assert Latest(h) == rest + [s];
  }

  lemma RedeliverNewest(h: seq<Status>, perPage: nat)
    requires h != [] && |Latest(h)| <= perPage
    ensures var s := h[|h| - 1];
            var d := FetchCombined(h, s.sha, perPage);
            var r := CombinedAfter(d, perPage, 1, s);
            r.None? || r == Some(d)
  {
    var s, l := h[|h| - 1], Latest(h);
    NewestStaysLast(h);
    OthersOfItems(l, s.context);
    ItemsAppend(Others(l, StatusContext, s.context), s);
    var d := FetchCombined(h, s.sha, perPage);
    assert d.statuses == Items(l);
    assert Others(d.statuses, ItemContext, s.context) + [AsCombined(s)] == d.statuses;
  }

  lemma RedeliverOlder(h: seq<Status>, perPage: nat, k: nat)
    requires k < |h| - 1 && Chronological(h) && |Latest(h)| <= perPage
    requires h[k].created.instant.value < h[|h| - 1].created.instant.value
    ensures CombinedAfter(FetchCombined(h, h[k].sha, perPage), perPage, 1, h[k]) == None
  {
    LatestFromHistory(h);
    var d := FetchCombined(h, h[k].sha, perPage);
    assert d.statuses == Items(Latest(h));
    assert !NotOlder(h[k].created, d.statuses[|d.statuses| - 1].created);
  }

  lemma TiedIsNotOlder(h: seq<Status>, k: nat, t: Status)
    requires k < |h| && Chronological(h) && t in h
    requires h[k].created.instant.value == h[|h| - 1].created.instant.value
    ensures NotOlder(h[k].created, t.created)
  {
  }

  lemma RedeliverTie(h: seq<Status>, perPage: nat, k: nat)
    requires k < |h| - 1 && Chronological(h) && |Latest(h)| <= perPage
    requires h[k].created.instant.value == h[|h| - 1].created.instant.value
    ensures var d := FetchCombined(h, h[k].sha, perPage);
            var r := CombinedAfter(d, perPage, 1, h[k]);
            r.Some? && r != Some(d)
  {
    var s, last, l := h[k], h[|h| - 1], Latest(h);
    assert s.context == last.context ==> s.created.text != last.created.text;
    var d := FetchCombined(h, s.sha, perPage);
    LatestFromHistory(h);
    assert d.statuses == Items(l);
    forall i | 0 <= i < |d.statuses| ensures NotOlder(s.created, d.statuses[i].created) {
      assert l[i] in h;
      TiedIsNotOlder(h, k, l[i]);
    }
    var items := Others(d.statuses, ItemContext, s.context) + [AsCombined(s)];
    assert |items| <= |l| by {
      RedeliveredContextListed(h, s);
      OthersShorter(d.statuses, s.context);
    }
    assert CombinedAfter(d, perPage, 1, s).value.statuses == items;
    assert d.statuses[|l| - 1] == AsCombined(last);
    assert items[|items| - 1] == AsCombined(s);
  }

  /** A status of the history is delivered again: the combined document is dropped or left as it is exactly when
      that status is the newest, or something strictly newer is on record. A tie within one timestamp breaks it. */
  lemma CombinedRedelivery(h: seq<Status>, perPage: nat, k: nat)
    requires k < |h| && Chronological(h) && |Latest(h)| <= perPage
    ensures var d := FetchCombined(h, h[k].sha, perPage);
            var r := CombinedAfter(d, perPage, 1, h[k]);
            (r.None? || r == Some(d)) <==>
            (k == |h| - 1 || h[k].created.instant.value < h[|h| - 1].created.instant.value)
  {
    if k == |h| - 1 {
      RedeliverNewest(h, perPage);
    } else if h[k].created.instant.value < h[|h| - 1].created.instant.value {
      RedeliverOlder(h, perPage, k);
    } else {
      RedeliverTie(h, perPage, k);
    }
  }

  lemma {:induction false} DropTwice(l: seq<Status>, context: string, s: Status)
    requires s.context == context
    ensures Others(Others(l, StatusContext, context) + [s], StatusContext, context) == Others(l, StatusContext, context)
  {
    if l == [] {
      assert ([] + [s])[1..] == [];
    } else {
      DropTwice(l[1..], context, s);
      var rest := Others(l[1..], StatusContext, context);
      if l[0].context == context {
        assert Others(l, StatusContext, context) == rest;
      } else {
        assert Others(l, StatusContext, context) + [s] == [l[0]] + (rest + [s]);
        assert ([l[0]] + (rest + [s]))[1..] == rest + [s];
      }
    }
  }

  lemma {:induction false} OthersShorter(items: seq<CombinedItem>, context: string)
    requires exists i :: 0 <= i < |items| && items[i].context == context
    ensures |Others(items, ItemContext, context)| < |items|
  {
    if items[0].context != context {
      var i :| 0 <= i < |items| && items[i].context == context;
      assert items[1..][i - 1].context == context;
      OthersShorter(items[1..], context);
    }
  }

  lemma {:induction false} ContextInLatest(h: seq<Status>, context: string)
    requires Mentions(h, context)
    ensures Mentions(Latest(h), context)
  {
    var k :| 0 <= k < |h| && h[k].context == context;
    if k > 0 {
      assert h[1..][k - 1].context == context;
    }
    if Mentions(h[1..], context) {
      ContextInLatest(h[1..], context);
      var rest := Latest(h[1..]);
      var i :| 0 <= i < |rest| && rest[i].context == context;
      var pre := if Mentions(h[1..], h[0].context) then [] else [h[0]];
      assert (pre + rest)[|pre| + i].context == context;
    } else {
      assert Latest(h)[0] == h[0];
    }
  }

  lemma RedeliveredContextListed(h: seq<Status>, s: Status)
    requires s in h
    ensures exists i :: 0 <= i < |Items(Latest(h))| && Items(Latest(h))[i].context == s.context
  {
    var k :| 0 <= k < |h| && h[k] == s;
    ContextInLatest(h, s.context);
    var i :| 0 <= i < |Latest(h)| && Latest(h)[i].context == s.context;
    assert Items(Latest(h))[i].context == s.context;
  }

  // ---- The raw list ----

  /** A status new to the page is prepended to what a fetch stored, and the overflow dropped: what a fetch of the
      longer history stores. */
  lemma ListRefinesFetch(h: seq<Status>, perPage: nat, s: Status)
    requires perPage >= 1 && !Absorbed(FetchList(h, perPage), s)
    ensures var r := ListAfter(FetchList(h, perPage), perPage, 1, s);
            (r.Some? <==> h == [] || NotOlder(s.created, h[|h| - 1].created))
            && (r.Some? ==> r.value == FetchList(h + [s], perPage))
  {
    var items := FetchList(h, perPage);
    var longer := [AsListed(s)] + items;
    var fetched := FetchList(h + [s], perPage);
    if h != [] {
      assert items[0] == AsListed(h[|h| - 1]);
    }
    forall i | 0 <= i < |fetched| ensures fetched[i] == longer[i] {
      if i > 0 {
        assert longer[i] == items[i - 1];
      }
    }
    assert fetched == if |longer| > perPage then longer[..perPage] else longer;
  }

  /** A redelivered status leaves the list alone (or drops it) exactly when it is still on the page or strictly
      older than the newest; one pushed off the page by statuses of its own second is listed twice. */
  lemma ListRedelivery(h: seq<Status>, perPage: nat, k: nat)
    requires k < |h| && Chronological(h) && perPage >= 1
    ensures var d := FetchList(h, perPage);
            var r := ListAfter(d, perPage, 1, h[k]);
            (r.None? || r == Some(d)) <==>
            (|h| - k <= perPage || h[k].created.instant.value < h[|h| - 1].created.instant.value)
  {
    var s, d := h[k], FetchList(h, perPage);
    if |h| - k <= perPage {
      assert d[|h| - 1 - k] == AsListed(s);
      assert Absorbed(d, s);
    } else {
      assert !Absorbed(d, s) by {
        forall i | 0 <= i < |d| ensures !(d[i].context == s.context && d[i].created.text == s.created.text) {
          assert d[i] == AsListed(h[|h| - 1 - i]);
        }
      }
      var last := h[|h| - 1];
      assert d[0] == AsListed(last);
      var r := ListAfter(d, perPage, 1, s);
      assert r.None? || r.value[0] == AsListed(s);
      assert s.context == last.context ==> s.created.text != last.created.text;
    }
  }

  // ---- The check-run listing ----

  ghost predicate Descending(runs: seq<Run>) {
    forall i, j :: 0 <= i < j < |runs| ==> runs[i].id > runs[j].id
  }

  /** The id-descending listing of a commit's runs. */
  ghost predicate IsListing(runs: seq<Run>, all: map<int, Run>) {
    && Descending(runs)
    && (forall i :: 0 <= i < |runs| ==> runs[i].id in all && all[runs[i].id] == runs[i])
    && (forall id {:trigger Lists(runs, id)} :: id in all ==> Lists(runs, id))
  }

  /** The runs of one commit, by id. */
  ghost predicate RunsOf(all: map<int, Run>, sha: string) {
    forall id :: id in all ==> all[id].id == id && all[id].headSHA == sha
  }

  lemma {:induction false} ListingUnique(a: seq<Run>, b: seq<Run>, all: map<int, Run>)
    requires IsListing(a, all) && IsListing(b, all)
    ensures a == b
    decreases |a|
  {
    if a == [] {
      assert forall id :: id in all ==> Lists(a, id);
    } else {
      assert Lists(b, a[0].id);
      assert Lists(a, b[0].id);
      assert a[0] == b[0];
      var rest := map id | id in all && id != a[0].id :: all[id];
      TailListing(a, all);
      TailListing(b, all);
      ListingUnique(a[1..], b[1..], rest);
    }
  }

  lemma TailListing(a: seq<Run>, all: map<int, Run>)
    requires a != [] && IsListing(a, all)
    ensures IsListing(a[1..], map id | id in all && id != a[0].id :: all[id])
  {
    forall id | id in all && id != a[0].id ensures Lists(a[1..], id) {
      assert Lists(a, id);
      var i :| 0 <= i < |a| && a[i].id == id;
      assert a[1..][i - 1].id == id;
    }
  }

  lemma {:induction false} SearchPartitions(runs: seq<Run>, id: int, i: nat, j: nat)
    requires i <= j <= |runs| && Descending(runs)
    requires forall k :: 0 <= k < i ==> runs[k].id >= id
    requires forall k :: j <= k < |runs| ==> runs[k].id < id
    ensures forall k :: 0 <= k < SearchIn(runs, id, i, j) ==> runs[k].id >= id
    ensures forall k :: SearchIn(runs, id, i, j) <= k < |runs| ==> runs[k].id < id
    decreases j - i
  {
    if i < j {
      var h := (i + j) / 2;
      if runs[h].id < id {
        SearchPartitions(runs, id, i, h);
      } else {
        SearchPartitions(runs, id, h + 1, j);
      }
    }
  }

  lemma InsertDescends(runs: seq<Run>, at: nat, run: Run)
    requires at <= |runs| && Descending(runs)
    requires forall k :: 0 <= k < at ==> runs[k].id > run.id
    requires forall k :: at <= k < |runs| ==> runs[k].id < run.id
    ensures Descending(Inserted(runs, at, run))
  {
    var out := Inserted(runs, at, run);
    forall i, j | 0 <= i < j < |out| ensures out[i].id > out[j].id {
      var x, y := out[i], out[j];
      assert x == if i < at then runs[i] else if i == at then run else runs[i - 1];
      assert y == if j < at then runs[j] else if j == at then run else runs[j - 1];
    }
  }

  lemma SearchedPlace(runs: seq<Run>, id: int)
    requires Descending(runs) && !Lists(runs, id)
    ensures var at := SearchIn(runs, id, 0, |runs|);
            (forall k :: 0 <= k < at ==> runs[k].id > id) && (forall k :: at <= k < |runs| ==> runs[k].id < id)
  {
    SearchPartitions(runs, id, 0, |runs|);
  }

  lemma InsertListsAll(runs: seq<Run>, all: map<int, Run>, at: nat, run: Run, id: int)
    requires at <= |runs| && IsListing(runs, all) && id in all[run.id := run]
    ensures Lists(Inserted(runs, at, run), id)
  {
    var out := Inserted(runs, at, run);
    if id != run.id {
      assert Lists(runs, id);
      var i :| 0 <= i < |runs| && runs[i].id == id;
      assert out[if i < at then i else i + 1].id == id;
    } else {
      assert out[at].id == id;
    }
  }

  lemma InsertKeepsListing(runs: seq<Run>, all: map<int, Run>, run: Run)
    requires IsListing(runs, all) && run.id !in all
    ensures IsListing(Inserted(runs, SearchIn(runs, run.id, 0, |runs|), run), all[run.id := run])
  {
    var at := SearchIn(runs, run.id, 0, |runs|);
    assert !Lists(runs, run.id);
    SearchedPlace(runs, run.id);
    InsertDescends(runs, at, run);
    forall id | id in all[run.id := run] ensures Lists(Inserted(runs, at, run), id) {
      InsertListsAll(runs, all, at, run, id);
    }
  }

  lemma ReplaceKeepsListing(runs: seq<Run>, all: map<int, Run>, run: Run)
    requires IsListing(runs, all) && run.id in all
    ensures IsListing(Replaced(runs, run), all[run.id := run])
  {
    var out := Replaced(runs, run);
    forall id | id in all[run.id := run] ensures Lists(out, id) {
      assert Lists(runs, id);
      var i :| 0 <= i < |runs| && runs[i].id == id;
      assert out[i].id == id;
    }
  }

  /** The stored first page is the listing of all of the commit's runs. A delivery for a run of that commit
      rewrites it exactly when the run is listed, or the page names the commit and has room; the rewritten page is
      the listing of the runs after the delivery. */
  lemma RunsRefineFetch(p: RunsPage, perPage: int, all: map<int, Run>, run: Run)
    requires IsListing(p.runs, all) && p.total == |p.runs| <= perPage
    requires RunsOf(all, run.headSHA)
    ensures var r := RunsAfter(p, perPage, 1, run);
            (r.Some? <==> run.id in all || (p.runs != [] && |p.runs| < perPage))
            && (r.Some? ==> IsListing(r.value.runs, all[run.id := run])
                            && r.value.total == |r.value.runs| <= perPage
                            && RunsOf(all[run.id := run], run.headSHA))
  {
    assert run.id in all <==> Lists(p.runs, run.id);
    if run.id in all {
      ReplaceKeepsListing(p.runs, all, run);
    } else {
      assert p.runs != [] ==> Describes(p, run.headSHA);
      InsertKeepsListing(p.runs, all, run);
    }
  }

  /** A delivery against a row that may already have been dropped. */
  ghost function Absorb(p: Option<RunsPage>, perPage: int, run: Run): Option<RunsPage> {
    if p.None? then None else RunsAfter(p.value, perPage, 1, run)
  }

  ghost function ByID(runs: seq<Run>): map<int, Run> {
    map i | 0 <= i < |runs| && Descending(runs) :: runs[i].id := runs[i]
  }

  lemma OwnListing(runs: seq<Run>)
    requires Descending(runs)
    ensures IsListing(runs, ByID(runs))
  {
  }

  /** Two deliveries in turn: what survives is the listing after both, and when it survives. */
  lemma TwoRuns(p: RunsPage, perPage: int, all: map<int, Run>, a: Run, b: Run)
    requires IsListing(p.runs, all) && p.total == |p.runs| <= perPage
    requires RunsOf(all, a.headSHA) && a.id != b.id && a.headSHA == b.headSHA
    ensures var r := Absorb(Absorb(Some(p), perPage, a), perPage, b);
            (r.Some? <==> (a.id in all && b.id in all)
                          || (p.runs != []
                              && |p.runs| + (if a.id in all then 0 else 1) + (if b.id in all then 0 else 1) <= perPage))
            && (r.Some? ==> IsListing(r.value.runs, all[a.id := a][b.id := b]) && r.value.total == |r.value.runs|)
  {
    RunsRefineFetch(p, perPage, all, a);
    LengthAfter(p, perPage, a);
    assert a.id in all <==> Lists(p.runs, a.id);
    var x := RunsAfter(p, perPage, 1, a);
    if x.Some? {
      RunsRefineFetch(x.value, perPage, all[a.id := a], b);
    }
  }

  lemma SameListing(x: Option<RunsPage>, y: Option<RunsPage>, all: map<int, Run>)
    requires x.Some? <==> y.Some?
    requires x.Some? ==> IsListing(x.value.runs, all) && x.value.total == |x.value.runs|
    requires y.Some? ==> IsListing(y.value.runs, all) && y.value.total == |y.value.runs|
    ensures x == y
  {
    if x.Some? {
      ListingUnique(x.value.runs, y.value.runs, all);
    }
  }

  lemma FullRunsCommute(p: RunsPage, perPage: int, all: map<int, Run>, a: Run, b: Run)
    requires IsListing(p.runs, all) && p.total == |p.runs| <= perPage
    requires RunsOf(all, a.headSHA) && a.id != b.id && a.headSHA == b.headSHA
    ensures Absorb(Absorb(Some(p), perPage, a), perPage, b) == Absorb(Absorb(Some(p), perPage, b), perPage, a)
  {
    TwoRuns(p, perPage, all, a, b);
    TwoRuns(p, perPage, all, b, a);
    assert all[a.id := a][b.id := b] == all[b.id := b][a.id := a];
    SameListing(Absorb(Absorb(Some(p), perPage, a), perPage, b), Absorb(Absorb(Some(p), perPage, b), perPage, a),
                all[a.id := a][b.id := b]);
  }

  /** Deliveries for two runs of one commit commute: the same document, or the same drop, in either order. */
  lemma RunsCommute(p: RunsPage, perPage: int, a: Run, b: Run)
    requires Descending(p.runs) && a.id != b.id && a.headSHA == b.headSHA
    requires forall i :: 0 <= i < |p.runs| ==> p.runs[i].headSHA == a.headSHA
    ensures Absorb(Absorb(Some(p), perPage, a), perPage, b) == Absorb(Absorb(Some(p), perPage, b), perPage, a)
  {
    if p.total == |p.runs| <= perPage {
      OwnListing(p.runs);
      FullRunsCommute(p, perPage, ByID(p.runs), a, b);
    } else {
      assert RunsAfter(p, perPage, 1, a).None? && RunsAfter(p, perPage, 1, b).None?;
    }
  }

  lemma LengthAfter(p: RunsPage, perPage: int, run: Run)
    ensures var r := RunsAfter(p, perPage, 1, run);
            r.Some? ==> |r.value.runs| == |p.runs| + (if Lists(p.runs, run.id) then 0 else 1)
                        && r.value.runs != []
  {
  }

  // ---- Without a common commit ----

  lemma ListsReplaced(runs: seq<Run>, x: Run, id: int)
    ensures Lists(Replaced(runs, x), id) <==> Lists(runs, id)
  {
    var out := Replaced(runs, x);
    assert forall i :: 0 <= i < |runs| ==> out[i].id == runs[i].id;
  }

  lemma ListsInserted(runs: seq<Run>, at: nat, y: Run, id: int)
    requires at <= |runs|
    ensures Lists(Inserted(runs, at, y), id) <==> Lists(runs, id) || y.id == id
  {
    var out := Inserted(runs, at, y);
    if i :| 0 <= i < |runs| && runs[i].id == id {
      assert out[if i < at then i else i + 1].id == id;
    }
    assert out[at].id == y.id;
  }

  /** Replacing an entry moves nothing. */
  lemma {:induction false} SameSearch(runs: seq<Run>, x: Run, id: int, i: nat, j: nat)
    requires i <= j <= |runs|
    ensures SearchIn(Replaced(runs, x), id, i, j) == SearchIn(runs, id, i, j)
    decreases j - i
  {
    if i < j {
      var h := (i + j) / 2;
      if runs[h].id < id {
        SameSearch(runs, x, id, i, h);
      } else {
        SameSearch(runs, x, id, h + 1, j);
      }
    }
  }

  ghost predicate Complete(p: RunsPage, perPage: int) { p.total == |p.runs| <= perPage }

  ghost function InOrder(p: RunsPage, perPage: int, a: Run, b: Run): Option<RunsPage> {
    Absorb(Absorb(Some(p), perPage, a), perPage, b)
  }

  /** A complete page with room lists x and not y, and rewriting x decides whether the page is about y's commit. */
  ghost predicate Switches(p: RunsPage, perPage: int, x: Run, y: Run) {
    && Complete(p, perPage) && |p.runs| < perPage && Lists(p.runs, x.id) && !Lists(p.runs, y.id)
    && (Describes(p, y.headSHA) <==> !Describes(p.(runs := Replaced(p.runs, x)), y.headSHA))
  }

  lemma BothListed(p: RunsPage, perPage: int, a: Run, b: Run)
    requires Complete(p, perPage) && a.id != b.id && Lists(p.runs, a.id) && Lists(p.runs, b.id)
    ensures InOrder(p, perPage, a, b) == InOrder(p, perPage, b, a)
  {
    ListsReplaced(p.runs, a, b.id);
    ListsReplaced(p.runs, b, a.id);
    assert Replaced(Replaced(p.runs, a), b) == Replaced(Replaced(p.runs, b), a);
  }

  lemma ReplaceThenInsert(p: RunsPage, perPage: int, x: Run, y: Run)
    requires Complete(p, perPage) && Lists(p.runs, x.id) && !Lists(p.runs, y.id)
    ensures var runs := Replaced(p.runs, x);
            InOrder(p, perPage, x, y)
            == if |runs| < perPage && Describes(p.(runs := runs), y.headSHA)
               then Some(RunsPage(|runs| + 1, Inserted(runs, SearchIn(p.runs, y.id, 0, |p.runs|), y))) else None
  {
    ListsReplaced(p.runs, x, y.id);
    SameSearch(p.runs, x, y.id, 0, |p.runs|);
  }

  lemma InsertThenReplace(p: RunsPage, perPage: int, x: Run, y: Run)
    requires Complete(p, perPage) && Lists(p.runs, x.id) && !Lists(p.runs, y.id)
    ensures var runs := Replaced(p.runs, x);
            InOrder(p, perPage, y, x)
            == if |runs| < perPage && Describes(p, y.headSHA)
               then Some(RunsPage(|runs| + 1, Inserted(runs, SearchIn(p.runs, y.id, 0, |p.runs|), y))) else None
  {
    var at := SearchIn(p.runs, y.id, 0, |p.runs|);
    ListsInserted(p.runs, at, y, x.id);
    assert Replaced(Inserted(p.runs, at, y), x) == Inserted(Replaced(p.runs, x), at, y);
  }

  lemma OneListed(p: RunsPage, perPage: int, x: Run, y: Run)
    requires Complete(p, perPage) && Lists(p.runs, x.id) && !Lists(p.runs, y.id)
    ensures InOrder(p, perPage, x, y) != InOrder(p, perPage, y, x) <==> Switches(p, perPage, x, y)
  {
    ReplaceThenInsert(p, perPage, x, y);
    InsertThenReplace(p, perPage, x, y);
  }

  lemma NeedsBoth(p: RunsPage, perPage: int, a: Run, b: Run)
    requires a.id != b.id && !Lists(p.runs, a.id) && !Lists(p.runs, b.id)
    ensures InOrder(p, perPage, a, b).Some? ==> Describes(p, a.headSHA) && Describes(p, b.headSHA)
  {
    var q := Absorb(Some(p), perPage, a);
    if q.Some? {
      var at := SearchIn(p.runs, a.id, 0, |p.runs|);
      ListsInserted(p.runs, at, a, b.id);
      if Describes(q.value, b.headSHA) {
        forall i | 0 <= i < |p.runs| ensures p.runs[i].headSHA == b.headSHA {
          assert q.value.runs[if i < at then i else i + 1] == p.runs[i];
        }
      }
    }
  }

  ghost function At(runs: seq<Run>, id: int): (at: nat)
    ensures at <= |runs|
  {
    SearchIn(runs, id, 0, |runs|)
  }

  /** Where a run inserted at i ends up after another is inserted at j. */
  ghost function Pushed(i: nat, j: nat): nat { if j <= i then i + 1 else i }

  /** The two searches place the two runs alike whichever goes first. */
  ghost predicate SamePlaces(runs: seq<Run>, a: Run, b: Run) {
    var i, k := At(runs, a.id), At(runs, b.id);
    var j, l := At(Inserted(runs, i, a), b.id), At(Inserted(runs, k, b), a.id);
    j == Pushed(k, l) && l == Pushed(i, j)
  }

  lemma InsertedTwice(runs: seq<Run>, i: nat, a: Run, j: nat, b: Run)
    requires i <= |runs| && j <= |runs| + 1
    ensures var out, at := Inserted(Inserted(runs, i, a), j, b), Pushed(i, j);
            && |out| == |runs| + 2 && out[j] == b && out[at] == a
            && forall x :: 0 <= x < |out| && x != j && x != at ==>
                 var y := x - (if x > j then 1 else 0) - (if x > at then 1 else 0);
                 0 <= y < |runs| && out[x] == runs[y]
  {
  }

  ghost function BothInserted(runs: seq<Run>, a: Run, b: Run): seq<Run> {
    var first := Inserted(runs, At(runs, a.id), a);
    Inserted(first, At(first, b.id), b)
  }

  lemma PlacesSuffice(runs: seq<Run>, a: Run, b: Run)
    requires SamePlaces(runs, a, b)
    ensures BothInserted(runs, a, b) == BothInserted(runs, b, a)
  {
    var i, k := At(runs, a.id), At(runs, b.id);
    InsertedTwice(runs, i, a, At(Inserted(runs, i, a), b.id), b);
    InsertedTwice(runs, k, b, At(Inserted(runs, k, b), a.id), a);
  }

  lemma PlacesNeeded(runs: seq<Run>, a: Run, b: Run)
    requires a.id != b.id && !Lists(runs, a.id) && !Lists(runs, b.id)
    requires BothInserted(runs, a, b) == BothInserted(runs, b, a)
    ensures SamePlaces(runs, a, b)
  {
    var i, k := At(runs, a.id), At(runs, b.id);
    var j, l := At(Inserted(runs, i, a), b.id), At(Inserted(runs, k, b), a.id);
    InsertedTwice(runs, i, a, j, b);
    InsertedTwice(runs, k, b, l, a);
    var both := BothInserted(runs, b, a);
    assert both[j] == b && both[Pushed(i, j)] == a;
  }

  ghost predicate Crosses(p: RunsPage, perPage: int, a: Run, b: Run) {
    && Complete(p, perPage) && |p.runs| + 2 <= perPage && !Lists(p.runs, a.id) && !Lists(p.runs, b.id)
    && Describes(p, a.headSHA) && Describes(p, b.headSHA) && !SamePlaces(p.runs, a, b)
  }

  lemma InsertsBoth(p: RunsPage, perPage: int, a: Run, b: Run)
    requires Complete(p, perPage) && a.id != b.id && !Lists(p.runs, a.id) && !Lists(p.runs, b.id)
    requires Describes(p, a.headSHA) && Describes(p, b.headSHA)
    ensures InOrder(p, perPage, a, b) == if |p.runs| + 2 > perPage then None
                                         else Some(RunsPage(|p.runs| + 2, BothInserted(p.runs, a, b)))
  {
    var ab := Inserted(p.runs, At(p.runs, a.id), a);
    ListsInserted(p.runs, At(p.runs, a.id), a, b.id);
    assert p.runs[0].headSHA == a.headSHA == b.headSHA;
    assert Describes(RunsPage(|ab|, ab), b.headSHA);
  }

  lemma NeitherListed(p: RunsPage, perPage: int, a: Run, b: Run)
    requires Complete(p, perPage) && a.id != b.id && !Lists(p.runs, a.id) && !Lists(p.runs, b.id)
    ensures InOrder(p, perPage, a, b) != InOrder(p, perPage, b, a) <==> Crosses(p, perPage, a, b)
  {
    if Describes(p, a.headSHA) && Describes(p, b.headSHA) {
      InsertsBoth(p, perPage, a, b);
      InsertsBoth(p, perPage, b, a);
      if SamePlaces(p.runs, a, b) {
        PlacesSuffice(p.runs, a, b);
      } else if BothInserted(p.runs, a, b) == BothInserted(p.runs, b, a) {
        PlacesNeeded(p.runs, a, b);
      }
    } else {
      NeedsBoth(p, perPage, a, b);
      NeedsBoth(p, perPage, b, a);
    }
  }

  /** On a listing the searches agree. */
  lemma ListingsNeverCross(p: RunsPage, perPage: int, a: Run, b: Run)
    requires a.id != b.id && Descending(p.runs)
    ensures !Crosses(p, perPage, a, b)
  {
    if Crosses(p, perPage, a, b) {
      assert p.runs[0].headSHA == a.headSHA == b.headSHA;
      RunsCommute(p, perPage, a, b);
      NeitherListed(p, perPage, a, b);
    }
  }

  /** Exactly when deliveries about two runs end differently in the two orders, for every page: rewriting the one the
      page lists switches whether the page is about the other's commit, or neither is listed and the page is so out
      of order that the halving search loses its way. */
  lemma OrderMattersIff(p: RunsPage, perPage: int, a: Run, b: Run)
    requires a.id != b.id
    ensures InOrder(p, perPage, a, b) != InOrder(p, perPage, b, a) <==>
            Switches(p, perPage, a, b) || Switches(p, perPage, b, a) || Crosses(p, perPage, a, b)
  {
    if Complete(p, perPage) {
      if Lists(p.runs, a.id) && Lists(p.runs, b.id) {
        BothListed(p, perPage, a, b);
      } else if Lists(p.runs, a.id) {
        OneListed(p, perPage, a, b);
      } else if Lists(p.runs, b.id) {
        OneListed(p, perPage, b, a);
      } else {
        NeitherListed(p, perPage, a, b);
      }
    }
  }

  /** A switch takes an upstream run that has changed commit: while the page has the run's commit right, there is
      none. */
  lemma SameCommitNeverSwitches(p: RunsPage, perPage: int, x: Run, y: Run)
    requires forall i :: 0 <= i < |p.runs| && p.runs[i].id == x.id ==> p.runs[i].headSHA == x.headSHA
    ensures !Switches(p, perPage, x, y)
  {
    var runs := Replaced(p.runs, x);
    assert forall i :: 0 <= i < |runs| ==> runs[i].headSHA == p.runs[i].headSHA;
  }

  /** Both happen: a listed run moved from s to t, rewritten first, leaves a page that names no commit; and two runs of
      one commit land differently on a page out of order. */
  lemma OrderCanMatter()
    ensures Switches(RunsPage(1, [Run(5, "s", "", "")]), 30, Run(5, "t", "", ""), Run(7, "s", "", ""))
    ensures Crosses(RunsPage(2, [Run(1, "s", "", ""), Run(3, "s", "", "")]), 30,
                    Run(2, "s", "", ""), Run(4, "s", "", ""))
  {
    var p, x := RunsPage(1, [Run(5, "s", "", "")]), Run(5, "t", "", "");
    assert p.runs[0].id == 5 && Describes(p, "s");
    assert Replaced(p.runs, x)[0].headSHA == "t";
    var q := [Run(1, "s", "", ""), Run(3, "s", "", "")];
    assert At(q, 2) == 2 && At(q, 4) == 0;
    var ab := Inserted(q, 2, Run(2, "s", "", ""));
    assert At(ab, 4) == 0;
    var ba := Inserted(q, 0, Run(4, "s", "", ""));
    assert At(ba, 2) == 1;
  }
}
