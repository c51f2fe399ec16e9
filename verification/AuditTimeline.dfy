/**
 The cursor-paged audit feed (dataruns/audit_views.py): newest first, the cursor being the
 creation time of a page's last event.
*/
module AuditTimeline {
  import opened Prelude
  import opened AuditChain
  import opened AuditLog

  /** max(1, min(limit, max)); value is None when the parameter is missing or not a number. */
  function ParseLimit(value: Option<int>, default: int, maxValue: int): (limit: int)
    requires 1 <= default <= maxValue
    ensures 1 <= limit <= maxValue
    ensures value.Some? && 1 <= value.value <= maxValue ==> limit == value.value
    ensures value.None? ==> limit == default
    ensures value.Some? && value.value > maxValue ==> limit == maxValue
    ensures value.Some? && value.value < 1 ==> limit == 1
  {
    var n := if value.Some? then value.value else default;
    var m := if n < maxValue then n else maxValue;
    if m > 1 then m else 1
  }

  function Reverse(es: seq<Entry>): (r: seq<Entry>)
    ensures |r| == |es| && forall i :: 0 <= i < |es| ==> r[i] == es[|es| - 1 - i]
  {
    if es == [] then [] else [Last(es)] + Reverse(Front(es))
  }

  /** Events created strictly before the cursor; all of them without a cursor. */
  function Older(es: seq<Entry>, before: Option<int>): (r: seq<Entry>)
    ensures forall e :: e in r <==> e in es && (before.None? || e.createdAt < before.value)
    ensures |r| <= |es|
  {
    if es == [] then []
    else (if before.None? || es[0].createdAt < before.value then [es[0]] else []) + Older(es[1..], before)
  }

  function NotRead(): Entry -> bool {
    (e: Entry) => !e.read
  }

  /** What the queryset yields before the cursor is applied. */
  function Feed(rows: seq<Entry>, company: string, unreadOnly: bool): seq<Entry> {
    var newestFirst := Reverse(Timeline(rows, company));
    if unreadOnly then Filter(newestFirst, NotRead()) else newestFirst
  }

  datatype Page = Page(results: seq<Entry>, nextCursor: Option<int>)

  /** AuditEventsListView.get for a caller who has a company. */
  method ListEvents(rows: seq<Entry>, company: string, limitParam: Option<int>, before: Option<int>, unreadOnly: bool)
    returns (r: Page)
    ensures r == PageOf(Older(Feed(rows, company, unreadOnly), before), ParseLimit(limitParam, 50, 100))
  {
    var limit := ParseLimit(limitParam, 50, 100);
    var queryset := Reverse(Timeline(rows, company));
    if unreadOnly {
      queryset := Filter(queryset, NotRead());
    }
    assert queryset == Feed(rows, company, unreadOnly);
    OlderNone(queryset);
    if before.Some? {
      queryset := Older(queryset, before);
    }
    r := FetchPage(queryset, limit);
  }

  /** One row more than the limit is fetched to learn whether there are more. */
  method FetchPage(queryset: seq<Entry>, limit: int) returns (r: Page)
    requires limit >= 1
    ensures r == PageOf(queryset, limit)
  {
    var fetched := if |queryset| > limit + 1 then queryset[..limit + 1] else queryset;
    var hasMore := |fetched| > limit;
    var page := if |fetched| > limit then fetched[..limit] else fetched;
    assert page == if |queryset| > limit then queryset[..limit] else queryset;
    var nextCursor: Option<int> := None;
    if hasMore && page != [] {
      nextCursor := Some(page[|page| - 1].createdAt);
    }
    r := Page(page, nextCursor);
  }

  function PageOf(candidates: seq<Entry>, limit: int): Page
    requires limit >= 1
  {
    if |candidates| > limit then Page(candidates[..limit], Some(candidates[limit - 1].createdAt))
    else Page(candidates, None)
  }

  lemma {:induction false} OlderNone(es: seq<Entry>)
    ensures Older(es, None) == es
  {
    if es == [] {
    } else {
      OlderNone(es[1..]);
    }
  }

  lemma {:induction false} OlderTwice(es: seq<Entry>, a: Option<int>, b: int)
    requires a.None? || b <= a.value
    ensures Older(Older(es, a), Some(b)) == Older(es, Some(b))
  {
    if es == [] {
    } else {
      OlderTwice(es[1..], a, b);
      var rest := Older(es[1..], a);
      if a.None? || es[0].createdAt < a.value {
        assert Older(es, a) == [es[0]] + rest;
        assert ([es[0]] + rest)[1..] == rest;
      } else {
        assert Older(es, a) == rest;
      }
    }
  }

  lemma {:induction false} OlderIsFewer(es: seq<Entry>, c: int)
    requires exists e :: e in es && e.createdAt >= c
    ensures |Older(es, Some(c))| < |es|
  {
    if es[0].createdAt < c {
      assert forall e :: e in es ==> e == es[0] || e in es[1..];
      OlderIsFewer(es[1..], c);
    }
  }

  /** A client that follows nextCursor until it is null. */
  function Walk(feed: seq<Entry>, limit: int, before: Option<int>): (pages: seq<seq<Entry>>)
    requires limit >= 1
    ensures pages == Pages(Older(feed, before), limit)
    decreases |Older(feed, before)|
  {
    var candidates := Older(feed, before);
    var page := PageOf(candidates, limit);
    if page.nextCursor.None? then [page.results]
    else
      var c := page.nextCursor.value;
      assert candidates[limit - 1] in candidates;
      OlderIsFewer(candidates, c);
      OlderTwice(feed, before, c);
      [page.results] + Walk(feed, limit, page.nextCursor)
  }

  /** The pages by themselves: each goes on where the last event's creation time leaves off. */
  function Pages(candidates: seq<Entry>, limit: int): (pages: seq<seq<Entry>>)
    requires limit >= 1
    ensures pages != [] && forall k :: 0 <= k < |pages| ==> |pages[k]| <= limit
    decreases |candidates|
  {
    if |candidates| <= limit then [candidates]
    else
      var c := candidates[limit - 1].createdAt;
      assert candidates[limit - 1] in candidates;
      OlderIsFewer(candidates, c);
      [candidates[..limit]] + Pages(Older(candidates, Some(c)), limit)
  }

  ghost predicate NewestFirst(es: seq<Entry>) {
    forall i, j :: 0 <= i < j < |es| ==> Before(es[j], es[i])
  }

  /** e has the creation time of last but sorts behind it. */
  ghost predicate HiddenBehind(e: Entry, last: Entry) {
    e.createdAt == last.createdAt && Before(e, last)
  }

  /** Some page that was followed by another ended in an event that hides e. */
  ghost predicate Skipped(pages: seq<seq<Entry>>, e: Entry) {
    exists k :: 0 <= k < |pages| - 1 && pages[k] != [] && HiddenBehind(e, Last(pages[k]))
  }

  /** The first n events are not older than c, and all the others are. */
  ghost predicate CutAt(es: seq<Entry>, c: int, n: nat) {
    && n <= |es|
    && (forall i :: 0 <= i < n ==> es[i].createdAt >= c)
    && (forall i :: n <= i < |es| ==> es[i].createdAt < c)
  }

  lemma {:induction false} CutExists(es: seq<Entry>, c: int) returns (n: nat)
    requires NewestFirst(es)
    ensures CutAt(es, c, n)
  {
    if es == [] {
      n := 0;
    } else if Last(es).createdAt >= c {
      n := |es|;
      forall i | 0 <= i < |es| ensures es[i].createdAt >= c {
        assert i == |es| - 1 || Before(Last(es), es[i]);
      }
    } else {
      n := CutExists(Front(es), c);
      assert forall i :: 0 <= i < |es| - 1 ==> Front(es)[i] == es[i];
    }
  }

  lemma {:induction false} OlderAtCut(es: seq<Entry>, c: int, n: nat)
    requires CutAt(es, c, n)
    ensures Older(es, Some(c)) == es[n..]
  {
    if n == 0 {
      AllOlder(es, c);
    } else {
      assert forall i :: 0 <= i < |es| - 1 ==> es[1..][i] == es[i + 1];
      OlderAtCut(es[1..], c, n - 1);
      assert es[1..][n - 1..] == es[n..];
    }
  }

  /** In a feed that is newest first, cutting at a cursor drops a prefix. */
  lemma OlderIsSuffix(es: seq<Entry>, c: int) returns (n: nat)
    requires NewestFirst(es)
    ensures CutAt(es, c, n) && Older(es, Some(c)) == es[n..]
  {
    n := CutExists(es, c);
    OlderAtCut(es, c, n);
  }

  lemma {:induction false} AllOlder(es: seq<Entry>, c: int)
    requires forall i :: 0 <= i < |es| ==> es[i].createdAt < c
    ensures Older(es, Some(c)) == es
  {
    if es == [] {
    } else {
      AllOlder(es[1..], c);
    }
  }

  lemma SkippedCons(first: seq<Entry>, rest: seq<seq<Entry>>, e: Entry)
    requires rest != [] && first != []
    ensures Skipped([first] + rest, e) <==> HiddenBehind(e, Last(first)) || Skipped(rest, e)
  {
    var pages := [first] + rest;
    assert pages[0] == first;
    assert forall k :: 0 <= k < |rest| ==> pages[k + 1] == rest[k];
    if Skipped(pages, e) && !HiddenBehind(e, Last(first)) {
      var k :| 0 <= k < |pages| - 1 && pages[k] != [] && HiddenBehind(e, Last(pages[k]));
      assert rest[k - 1] == pages[k];
    }
  }

  lemma SinglePage(page: seq<Entry>)
    ensures Concat([page]) == page
  {
    ConcatCons(page, []);
    assert [page] + [] == [page];
  }

  lemma {:induction false} PagesComeFromCandidates(candidates: seq<Entry>, limit: int)
    requires limit >= 1
    ensures forall k, e :: 0 <= k < |Pages(candidates, limit)| && e in Pages(candidates, limit)[k] ==> e in candidates
    ensures forall e :: e in Concat(Pages(candidates, limit)) ==> e in candidates
    decreases |candidates|
  {
    if |candidates| <= limit {
      SinglePage(candidates);
    } else {
      var c := candidates[limit - 1].createdAt;
      assert candidates[limit - 1] in candidates;
      OlderIsFewer(candidates, c);
      var rest := Pages(Older(candidates, Some(c)), limit);
      PagesComeFromCandidates(Older(candidates, Some(c)), limit);
      ConcatCons(candidates[..limit], rest);
    }
  }

  /** How one page relates to the events after it. */
  lemma PageBoundary(candidates: seq<Entry>, limit: int, e: Entry)
    requires NewestFirst(candidates) && 1 <= limit < |candidates| && e in candidates
    ensures var c := candidates[limit - 1].createdAt;
      && (e in candidates[..limit] ==> e.createdAt >= c && !HiddenBehind(e, candidates[limit - 1]))
      && (e !in candidates[..limit] && e.createdAt >= c ==> HiddenBehind(e, candidates[limit - 1]))
  {
    var i :| 0 <= i < |candidates| && candidates[i] == e;
    assert i < limit ==> candidates[..limit][i] == e;
    if i < limit - 1 {
      assert Before(candidates[limit - 1], candidates[i]);
    } else if i >= limit {
      assert Before(candidates[i], candidates[limit - 1]);
    } else {
      assert e == candidates[limit - 1];
    }
    if e in candidates[..limit] {
      var j :| 0 <= j < limit && candidates[j] == e;
      assert j == limit - 1 || Before(candidates[limit - 1], candidates[j]);
    }
  }

  /** The pages leave out exactly the events hidden behind a page's last one. */
  lemma {:induction false} PagesOmitExactlyTheSkipped(candidates: seq<Entry>, limit: int, e: Entry)
    requires NewestFirst(candidates) && limit >= 1 && e in candidates
    ensures e in Concat(Pages(candidates, limit)) <==> !Skipped(Pages(candidates, limit), e)
    decreases |candidates|
  {
    if |candidates| <= limit {
      SinglePage(candidates);
    } else {
      var page, c := candidates[..limit], candidates[limit - 1].createdAt;
      assert candidates[limit - 1] in candidates;
      OlderIsFewer(candidates, c);
      var older := Older(candidates, Some(c));
      var rest := Pages(older, limit);
      ConcatCons(page, rest);
      SkippedCons(page, rest, e);
      PageBoundary(candidates, limit, e);
      PagesComeFromCandidates(older, limit);
      if e in older {
        OlderKeepsOrder(candidates, c);
        PagesOmitExactlyTheSkipped(older, limit, e);
      } else {
        assert e !in Concat(rest);
        LaterPagesHideNothingNewer(rest, e, c);
      }
    }
  }

  lemma LaterPagesHideNothingNewer(pages: seq<seq<Entry>>, e: Entry, c: int)
    requires e.createdAt >= c
    requires forall k, x :: 0 <= k < |pages| && x in pages[k] ==> x.createdAt < c
    ensures !Skipped(pages, e)
  {
    forall k | 0 <= k < |pages| - 1 && pages[k] != [] ensures !HiddenBehind(e, Last(pages[k])) {
      assert Last(pages[k]) in pages[k];
    }
  }

  lemma OlderKeepsOrder(es: seq<Entry>, c: int)
    requires NewestFirst(es)
    ensures NewestFirst(Older(es, Some(c)))
  {
    var n := OlderIsSuffix(es, c);
  }

  /** No page repeats an event, and the pages read one after the other run from new to old. */
  lemma {:induction false} PagesAreNewestFirst(candidates: seq<Entry>, limit: int)
    requires NewestFirst(candidates) && limit >= 1
    ensures NewestFirst(Concat(Pages(candidates, limit)))
    decreases |candidates|
  {
    if |candidates| <= limit {
      SinglePage(candidates);
    } else {
      var page, c := candidates[..limit], candidates[limit - 1].createdAt;
      assert candidates[limit - 1] in candidates;
      OlderIsFewer(candidates, c);
      OlderKeepsOrder(candidates, c);
      var older := Older(candidates, Some(c));
      PagesAreNewestFirst(older, limit);
      PagesComeFromCandidates(older, limit);
      ConcatCons(page, Pages(older, limit));
      forall x, y | x in page && y in Concat(Pages(older, limit)) ensures Before(y, x) {
        PageBoundary(candidates, limit, x);
      }
    }
  }

  lemma HeadIsNewest(es: seq<Entry>, e: Entry)
    requires NewestFirst(es) && e in es
    ensures e == es[0] || Before(e, es[0])
  {
  }

  /** Two newest-first lists with the same events are the same list. */
  lemma {:induction false} OrderDeterminesList(a: seq<Entry>, b: seq<Entry>)
    requires NewestFirst(a) && NewestFirst(b) && forall e :: e in a <==> e in b
    ensures a == b
  {
    assert (a == [] || a[0] in a) && (b == [] || b[0] in b);
    if a != [] && b != [] {
      HeadIsNewest(b, a[0]);
      HeadIsNewest(a, b[0]);
      assert a[0] == b[0];
      forall e | e in a[1..] ensures e in b[1..] {
        var k :| 1 <= k < |a| && a[k] == e;
        assert Before(e, a[0]) && e in a;
      }
      forall e | e in b[1..] ensures e in a[1..] {
        var k :| 1 <= k < |b| && b[k] == e;
        assert Before(e, b[0]) && e in b;
      }
      OrderDeterminesList(a[1..], b[1..]);
      assert a == [a[0]] + a[1..] && b == [b[0]] + b[1..];
    }
  }

  lemma ReverseMembers(es: seq<Entry>, e: Entry)
    ensures e in Reverse(es) <==> e in es
  {
    if e in es {
      var i :| 0 <= i < |es| && es[i] == e;
      assert Reverse(es)[|es| - 1 - i] == e;
    }
  }

  lemma FeedMembers(rows: seq<Entry>, company: string, unreadOnly: bool, e: Entry)
    ensures e in Feed(rows, company, unreadOnly) <==> e in rows && e.company == company && (unreadOnly ==> !e.read)
  {
    TimelineMembers(rows, company, e);
    ReverseMembers(Timeline(rows, company), e);
  }

  /** The feed holds the company's events, or its unread ones, newest first. */
  lemma FeedIsNewestFirst(rows: seq<Entry>, company: string, unreadOnly: bool)
    requires DistinctIds(rows)
    ensures NewestFirst(Feed(rows, company, unreadOnly))
    ensures forall e ::
      e in Feed(rows, company, unreadOnly) <==> e in rows && e.company == company && (unreadOnly ==> !e.read)
  {
    forall e ensures
      e in Feed(rows, company, unreadOnly) <==> e in rows && e.company == company && (unreadOnly ==> !e.read)
    {
      FeedMembers(rows, company, unreadOnly, e);
    }
    TimelineSortsTheCompanysRows(rows, company);
    var t := Timeline(rows, company);
    assert NewestFirst(Reverse(t));
    FilterKeepsOrder(Reverse(t), NotRead());
  }

  lemma {:induction false} FilterKeepsOrder(es: seq<Entry>, p: Entry -> bool)
    requires NewestFirst(es)
    ensures NewestFirst(Filter(es, p))
  {
    if es == [] {
    } else {
      FilterKeepsOrder(Front(es), p);
      forall x | x in Filter(Front(es), p) ensures Before(Last(es), x) {
        var i :| 0 <= i < |es| - 1 && es[i] == x;
      }
    }
  }

  /**
   Following the cursor from the first page: the events come newest first and none twice, and an event
   of the feed is missing exactly when it shares its creation time with the last event of a page that
   has a successor and sorts behind it.
  */
  lemma WalkMissesExactlyTheSkipped(rows: seq<Entry>, company: string, unreadOnly: bool, limit: int)
    requires DistinctIds(rows) && limit >= 1
    ensures var feed := Feed(rows, company, unreadOnly);
      var pages := Walk(feed, limit, None);
      && NewestFirst(Concat(pages))
      && forall e :: e in Concat(pages) <==> e in feed && !Skipped(pages, e)
  {
    var feed := Feed(rows, company, unreadOnly);
    FeedIsNewestFirst(rows, company, unreadOnly);
    OlderNone(feed);
    PagesAreNewestFirst(feed, limit);
    PagesComeFromCandidates(feed, limit);
    forall e | e in feed
      ensures e in Concat(Pages(feed, limit)) <==> !Skipped(Pages(feed, limit), e)
    {
      PagesOmitExactlyTheSkipped(feed, limit, e);
    }
  }

  /** Wherever a page of this size ends in the feed, the next event has another creation time. */
  predicate CutsBetweenTimes(feed: seq<Entry>, limit: int)
    requires limit >= 1
    decreases |feed|
  {
    |feed| > limit ==> feed[limit - 1].createdAt != feed[limit].createdAt && CutsBetweenTimes(feed[limit..], limit)
  }

  /** A cut between two times: the cursor selects what follows the page. */
  lemma CleanCut(feed: seq<Entry>, limit: int)
    requires NewestFirst(feed) && 1 <= limit < |feed|
    requires feed[limit - 1].createdAt != feed[limit].createdAt
    ensures Older(feed, Some(feed[limit - 1].createdAt)) == feed[limit..]
    ensures NewestFirst(feed[limit..])
  {
    var n := OlderIsSuffix(feed, feed[limit - 1].createdAt);
    assert Before(feed[limit], feed[limit - 1]);
    assert n == limit;
  }

  lemma CleanPages(feed: seq<Entry>, limit: int)
    requires NewestFirst(feed) && 1 <= limit < |feed|
    requires feed[limit - 1].createdAt != feed[limit].createdAt
    ensures Concat(Pages(feed, limit)) == feed[..limit] + Concat(Pages(feed[limit..], limit))
  {
    CleanCut(feed, limit);
    assert Pages(feed, limit) == [feed[..limit]] + Pages(feed[limit..], limit);
    ConcatCons(feed[..limit], Pages(feed[limit..], limit));
  }

  lemma SameRest<T>(s: seq<T>, n: nat, rest: seq<T>)
    requires n <= |s|
    ensures s[..n] + rest == s <==> rest == s[n..]
  {
    assert s == s[..n] + s[n..];
    assert rest == (s[..n] + rest)[n..];
  }

  /** The pages of the feed, read one after the other, are the feed. */
  ghost predicate Complete(feed: seq<Entry>, limit: int)
    requires limit >= 1
  {
    Concat(Pages(feed, limit)) == feed
  }

  lemma CleanCutKeepsComplete(feed: seq<Entry>, limit: int)
    requires NewestFirst(feed) && 1 <= limit < |feed|
    requires feed[limit - 1].createdAt != feed[limit].createdAt
    ensures Complete(feed, limit) <==> Complete(feed[limit..], limit)
    ensures NewestFirst(feed[limit..])
  {
    CleanCut(feed, limit);
    CleanPages(feed, limit);
    SameRest(feed, limit, Concat(Pages(feed[limit..], limit)));
  }

  /** A cut within one time: the first event after the page is on no page. */
  lemma TornCut(feed: seq<Entry>, limit: int)
    requires NewestFirst(feed) && 1 <= limit < |feed|
    requires feed[limit - 1].createdAt == feed[limit].createdAt
    ensures feed[limit] !in Concat(Pages(feed, limit))
  {
    var page, c, lost := feed[..limit], feed[limit - 1].createdAt, feed[limit];
    assert feed[limit - 1] in feed;
    OlderIsFewer(feed, c);
    PagesComeFromCandidates(Older(feed, Some(c)), limit);
    ConcatCons(page, Pages(Older(feed, Some(c)), limit));
    assert lost !in Older(feed, Some(c));
    forall i | 0 <= i < limit ensures page[i] != lost {
      assert Before(feed[limit], feed[i]);
    }
  }

  lemma {:induction false} PagesAreCompleteIff(feed: seq<Entry>, limit: int)
    requires NewestFirst(feed) && limit >= 1
    ensures Complete(feed, limit) <==> CutsBetweenTimes(feed, limit)
    decreases |feed|
  {
    if |feed| <= limit {
      SinglePage(feed);
    } else if feed[limit - 1].createdAt == feed[limit].createdAt {
      TornCut(feed, limit);
      assert feed[limit] in feed;
    } else {
      CleanCutKeepsComplete(feed, limit);
      PagesAreCompleteIff(feed[limit..], limit);
    }
  }

  /** The walk returns the whole feed exactly when no page of that size ends between two events of one time. */
  lemma WalkIsCompleteIff(rows: seq<Entry>, company: string, unreadOnly: bool, limit: int)
    requires DistinctIds(rows) && limit >= 1
    ensures var feed := Feed(rows, company, unreadOnly);
      Concat(Walk(feed, limit, None)) == feed <==> CutsBetweenTimes(feed, limit)
  {
    var feed := Feed(rows, company, unreadOnly);
    FeedIsNewestFirst(rows, company, unreadOnly);
    OlderNone(feed);
    PagesAreCompleteIff(feed, limit);
  }

  lemma FeedOfTwo(x: Entry, y: Entry)
    requires x.company == y.company && Before(x, y)
    ensures Feed([x, y], x.company, false) == [y, x]
  {
    assert [x, y] == [x] + [y] && [x] == [] + [x];
    TimelineAfterAppend([], x, x.company);
    TimelineAfterAppend([x], y, x.company);
    assert Timeline([x, y], x.company) == [x, y];
    assert Reverse([x, y]) == [y, x];
  }

  /** Two events of one instant, read one to a page: the walk returns the later one only. */
  lemma TwoEventsOfOneInstant(x: Entry, y: Entry)
    requires x.company == y.company && x.createdAt == y.createdAt && x.id < y.id
    ensures Feed([x, y], x.company, false) == [y, x]
    ensures Concat(Walk([y, x], 1, None)) == [y]
  {
    var feed := [y, x];
    FeedOfTwo(x, y);
    OlderNone(feed);
    OlderAtCut(feed, y.createdAt, 2);
    assert feed[2..] == [] && feed[..1] == [y];
    assert Pages(feed, 1) == [[y]] + Pages([], 1);
    ConcatCons([y], Pages([], 1));
    SinglePage([]);
  }

  lemma {:induction false} DistinctTimesCutCleanly(feed: seq<Entry>, limit: int)
    requires limit >= 1 && forall i, j :: 0 <= i < j < |feed| ==> feed[i].createdAt != feed[j].createdAt
    ensures CutsBetweenTimes(feed, limit)
    decreases |feed|
  {
    if |feed| <= limit {
    } else {
      DistinctTimesCutCleanly(feed[limit..], limit);
    }
  }

  /** With distinct creation times nothing is missed. */
  lemma WalkWithDistinctTimes(rows: seq<Entry>, company: string, unreadOnly: bool, limit: int)
    requires DistinctIds(rows) && limit >= 1
    requires forall x, y :: x in rows && y in rows && x.createdAt == y.createdAt && x.company == y.company ==> x == y
    ensures Concat(Walk(Feed(rows, company, unreadOnly), limit, None)) == Feed(rows, company, unreadOnly)
  {
    var feed := Feed(rows, company, unreadOnly);
    FeedIsNewestFirst(rows, company, unreadOnly);
    forall i, j | 0 <= i < j < |feed| ensures feed[i].createdAt != feed[j].createdAt {
      assert feed[i] in feed && feed[j] in feed && Before(feed[j], feed[i]);
    }
    DistinctTimesCutCleanly(feed, limit);
    WalkIsCompleteIff(rows, company, unreadOnly, limit);
  }

  /** later is rows with any number of events appended, none of them older than the cursor. */
  ghost predicate OnlyNewer(rows: seq<Entry>, later: seq<Entry>, cursor: int) {
    rows <= later && forall i :: |rows| <= i < |later| ==> later[i].createdAt >= cursor
  }

  lemma OlderFeedIsNewestFirst(rows: seq<Entry>, company: string, unreadOnly: bool, c: int)
    requires DistinctIds(rows)
    ensures NewestFirst(Older(Feed(rows, company, unreadOnly), Some(c)))
  {
    FeedIsNewestFirst(rows, company, unreadOnly);
    OlderKeepsOrder(Feed(rows, company, unreadOnly), c);
  }

  lemma OlderIgnoresNewerRows(rows: seq<Entry>, later: seq<Entry>, company: string, unreadOnly: bool, c: int)
    requires DistinctIds(later) && OnlyNewer(rows, later, c)
    ensures Older(Feed(later, company, unreadOnly), Some(c)) == Older(Feed(rows, company, unreadOnly), Some(c))
  {
    var a, b := Older(Feed(later, company, unreadOnly), Some(c)), Older(Feed(rows, company, unreadOnly), Some(c));
    assert forall i :: 0 <= i < |rows| ==> rows[i] == later[i];
    assert DistinctIds(rows);
    OlderFeedIsNewestFirst(later, company, unreadOnly, c);
    OlderFeedIsNewestFirst(rows, company, unreadOnly, c);
    forall x ensures x in a <==> x in b {
      FeedMembers(later, company, unreadOnly, x);
      FeedMembers(rows, company, unreadOnly, x);
    }
    OrderDeterminesList(a, b);
  }

  /** Events logged during the walk, none older than the cursor, change none of the pages still to come. */
  lemma AppendsDoNotDisturbTheWalk(
      rows: seq<Entry>, later: seq<Entry>, company: string, unreadOnly: bool, limit: int, cursor: int)
    requires limit >= 1 && DistinctIds(later) && OnlyNewer(rows, later, cursor)
    ensures Walk(Feed(later, company, unreadOnly), limit, Some(cursor))
         == Walk(Feed(rows, company, unreadOnly), limit, Some(cursor))
  {
    OlderIgnoresNewerRows(rows, later, company, unreadOnly, cursor);
  }

  // ---------- a walk over a growing log ----------

  type Limit = n: int | n >= 1 witness 1

  datatype Query = Query(company: string, unreadOnly: bool, limit: Limit)

  /** How a query reads a page from a log. */
  function Reader(q: Query): (seq<Entry>, Option<int>) -> Page {
    (rows: seq<Entry>, before: Option<int>) =>
      PageOf(Older(Feed(rows, q.company, q.unreadOnly), before), q.limit)
  }

  /** The whole walk over a log that stands still. */
  function Walker(q: Query): (seq<Entry>, Option<int>) -> seq<seq<Entry>> {
    (rows: seq<Entry>, before: Option<int>) => Walk(Feed(rows, q.company, q.unreadOnly), q.limit, before)
  }

  /** The k-th page is read from the k-th log; the client stops at a null cursor or when logs run out. */
  function WalkOver(logs: seq<seq<Entry>>, read: (seq<Entry>, Option<int>) -> Page, before: Option<int>): seq<seq<Entry>> {
    if logs == [] then []
    else
      var page := read(logs[0], before);
      [page.results] + if page.nextCursor.None? then [] else WalkOver(logs[1..], read, page.nextCursor)
  }

  /** Between one page and the next only events not older than the cursor then in force are appended. */
  ghost predicate GrowsInFront(logs: seq<seq<Entry>>, read: (seq<Entry>, Option<int>) -> Page, before: Option<int>) {
    |logs| >= 2 ==>
      var cursor := read(logs[0], before).nextCursor;
      cursor.Some? ==> OnlyNewer(logs[0], logs[1], cursor.value) && GrowsInFront(logs[1..], read, cursor)
  }

  ghost predicate AllDistinctIds(logs: seq<seq<Entry>>) {
    forall k :: 0 <= k < |logs| ==> DistinctIds(logs[k])
  }

  /** walk is one page after the other, as read gives them from one log. */
  predicate FirstPageThenRest(
      walk: (seq<Entry>, Option<int>) -> seq<seq<Entry>>, read: (seq<Entry>, Option<int>) -> Page,
      rows: seq<Entry>, before: Option<int>)
  {
    var page := read(rows, before);
    walk(rows, before) == [page.results] + if page.nextCursor.None? then [] else walk(rows, page.nextCursor)
  }

  ghost predicate Walks(walk: (seq<Entry>, Option<int>) -> seq<seq<Entry>>, read: (seq<Entry>, Option<int>) -> Page) {
    forall rows, before :: FirstPageThenRest(walk, read, rows, before)
  }

  ghost predicate IgnoresNewer(walk: (seq<Entry>, Option<int>) -> seq<seq<Entry>>) {
    forall rows, later, c :: OnlyNewer(rows, later, c) && DistinctIds(later) ==> walk(later, Some(c)) == walk(rows, Some(c))
  }

  lemma OnePageMore<T>(x: T, some: seq<T>, all: seq<T>, n: nat)
    requires some == AtMost(all, n)
    ensures [x] + some == AtMost([x] + all, n + 1)
  {
  }

  lemma {:induction false} WalkOverIsOneWalk(
      logs: seq<seq<Entry>>, read: (seq<Entry>, Option<int>) -> Page,
      walk: (seq<Entry>, Option<int>) -> seq<seq<Entry>>, before: Option<int>)
    requires Walks(walk, read) && IgnoresNewer(walk)
    requires logs != [] && GrowsInFront(logs, read, before) && AllDistinctIds(logs)
    ensures WalkOver(logs, read, before) == AtMost(walk(logs[0], before), |logs|)
  {
    var page, later := read(logs[0], before), logs[1..];
    assert FirstPageThenRest(walk, read, logs[0], before);
    if page.nextCursor.Some? {
      var c := page.nextCursor;
      if later == [] {
        assert WalkOver(later, read, c) == AtMost(walk(logs[0], c), 0);
      } else {
        assert AllDistinctIds(later);
        WalkOverIsOneWalk(later, read, walk, c);
        assert OnlyNewer(logs[0], later[0], c.value) && DistinctIds(later[0]);
      }
      OnePageMore(page.results, WalkOver(later, read, c), walk(logs[0], c), |later|);
    }
  }

  lemma WalkerWalks(q: Query)
    ensures Walks(Walker(q), Reader(q))
  {
    forall rows, before ensures FirstPageThenRest(Walker(q), Reader(q), rows, before) {
    }
  }

  lemma WalkerIgnoresNewer(q: Query)
    ensures IgnoresNewer(Walker(q))
  {
    forall rows, later, c | OnlyNewer(rows, later, c) && DistinctIds(later)
      ensures Walker(q)(later, Some(c)) == Walker(q)(rows, Some(c))
    {
      AppendsDoNotDisturbTheWalk(rows, later, q.company, q.unreadOnly, q.limit, c);
    }
  }

  /**
   Walking while the log grows gives the pages of the log the walk started on, as far as it gets: a page per
   log, and the whole walk if there are enough of them.
  */
  lemma GrowingLogDoesNotDisturbTheWalk(logs: seq<seq<Entry>>, q: Query, before: Option<int>)
    requires logs != [] && GrowsInFront(logs, Reader(q), before) && AllDistinctIds(logs)
    ensures var pages := Walk(Feed(logs[0], q.company, q.unreadOnly), q.limit, before);
      WalkOver(logs, Reader(q), before) == AtMost(pages, |logs|)
  {
    WalkerWalks(q);
    WalkerIgnoresNewer(q);
    WalkOverIsOneWalk(logs, Reader(q), Walker(q), before);
  }
}
