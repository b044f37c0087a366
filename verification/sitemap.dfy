/** Link collection: `get_article_links` and the loop of `main` that walks the
    sub-sitemaps of the index under a global article budget. Every fetch and
    parse is abstracted: `fetch(url)` is the list of `<loc>` texts of the
    sub-sitemap at `url`, in document order. */
module Sitemap {
  import opened Text

  /** Sub-sitemaps whose URL contains this marker hold articles. */
  const PostsMarker := "posts"
  /** Seconds slept before each sub-sitemap fetch. */
  const CrawlDelay := 2

  predicate IsPostsSitemap(url: string) {
    Contains(url, PostsMarker)
  }

  /** One sub-sitemap request: its URL and the link budget passed with it. */
  datatype Request = Request(url: string, budget: int)

  /** What the loop does to the outside world, in order. */
  datatype Event = Sleep(seconds: nat) | Fetch(request: Request)

  /** The loop's outcome: the collected article links and the events it caused. */
  datatype Crawl = Crawl(links: seq<string>, log: seq<Event>)

  /** `get_article_links(url, maxLinks)` on a sub-sitemap whose `<loc>` texts are
      `locs`: the Python slice `locs[:maxLinks]`. */
  function ArticleLinks(locs: seq<string>, maxLinks: int): (r: seq<string>)
    ensures r <= locs
    ensures maxLinks >= 0 ==> r == locs[..Min(maxLinks, |locs|)]
    ensures maxLinks >= 0 ==> |r| <= maxLinks
  {
    SliceTo(locs, maxLinks)
  }

  /** The sub-sitemaps that hold articles, in index order. */
  function Posts(subs: seq<string>): (r: seq<string>)
    ensures forall u :: u in r ==> u in subs && IsPostsSitemap(u)
    ensures forall u :: u in subs && IsPostsSitemap(u) ==> u in r
    decreases |subs|
  {
    if |subs| == 0 then []
    else if IsPostsSitemap(subs[0]) then [subs[0]] + Posts(subs[1..])
    else Posts(subs[1..])
  }

  /** All links of the given sub-sitemaps, one sub-sitemap after the other. */
  function Flatten(fetch: string -> seq<string>, urls: seq<string>): (r: seq<string>)
    decreases |urls|
  {
    if |urls| == 0 then [] else fetch(urls[0]) + Flatten(fetch, urls[1..])
  }

  /** The requests recorded in a log, in order. */
  function Requests(log: seq<Event>): (r: seq<Request>)
    ensures |r| <= |log|
    decreases |log|
  {
    if |log| == 0 then []
    else if log[0].Fetch? then [log[0].request] + Requests(log[1..])
    else Requests(log[1..])
  }

  /** The URLs of a list of requests. */
  function Urls(rs: seq<Request>): (r: seq<string>)
    ensures |r| == |rs|
    ensures forall i :: 0 <= i < |rs| ==> r[i] == rs[i].url
    decreases |rs|
  {
    if |rs| == 0 then [] else [rs[0].url] + Urls(rs[1..])
  }

  /** Each fetch is preceded by exactly one crawl delay, and every delay is
      followed by its fetch. */
  predicate Paced(log: seq<Event>)
    decreases |log|
  {
    |log| == 0
    || (|log| >= 2 && log[0] == Sleep(CrawlDelay) && log[1].Fetch? && Paced(log[2..]))
  }

  /** The loop of `main` from the sub-sitemaps `subs` on, with `acc` already
      collected. The result holds all links collected (`acc` included) and the
      events caused by `subs` alone. */
  function CollectFrom(subs: seq<string>, fetch: string -> seq<string>, max: int, acc: seq<string>): (r: Crawl)
    requires |acc| < max
    ensures acc <= r.links
    ensures |r.links| <= max
    decreases |subs|
  {
    if |subs| == 0 then Crawl(acc, [])
    else if !IsPostsSitemap(subs[0]) then CollectFrom(subs[1..], fetch, max, acc)
    else
      var budget := max - |acc|;
      var links := acc + ArticleLinks(fetch(subs[0]), budget);
      var events := [Sleep(CrawlDelay), Fetch(Request(subs[0], budget))];
      if |links| >= max then Crawl(links, events)
      else
        var rest := CollectFrom(subs[1..], fetch, max, links);
        Crawl(rest.links, events + rest.log)
  }

  /** The whole loop of `main`, starting from no links. */
  function Collect(subs: seq<string>, fetch: string -> seq<string>, max: int): (r: Crawl)
    requires max >= 1
  {
    CollectFrom(subs, fetch, max, [])
  }

  /** Filtering keeps index order: the posts of two consecutive stretches of
      the index are the posts of the first followed by those of the second. */
  lemma {:induction false} PostsAppend(a: seq<string>, b: seq<string>)
    ensures Posts(a + b) == Posts(a) + Posts(b)
    decreases |a|
  {
    if |a| == 0 {
      assert a + b == b;
    } else {
      assert (a + b)[0] == a[0] && (a + b)[1..] == a[1..] + b;
      PostsAppend(a[1..], b);
    }
  }

  /** A single sub-sitemap is kept exactly when its URL contains the marker. */
  lemma PostsSingle(u: string)
    ensures Posts([u]) == if IsPostsSitemap(u) then [u] else []
  {
    assert [u][1..] == [];
  }

  lemma {:induction false} RequestsAppend(a: seq<Event>, b: seq<Event>)
    ensures Requests(a + b) == Requests(a) + Requests(b)
    decreases |a|
  {
    if |a| == 0 {
      assert a + b == b;
    } else {
      assert (a + b)[0] == a[0] && (a + b)[1..] == a[1..] + b;
      RequestsAppend(a[1..], b);
    }
  }

  lemma {:induction false} FlattenAppend(fetch: string -> seq<string>, a: seq<string>, b: seq<string>)
    ensures Flatten(fetch, a + b) == Flatten(fetch, a) + Flatten(fetch, b)
    decreases |a|
  {
    if |a| == 0 {
      assert a + b == b;
    } else {
      assert (a + b)[0] == a[0] && (a + b)[1..] == a[1..] + b;
      FlattenAppend(fetch, a[1..], b);
    }
  }

  /** The requests of one posts sub-sitemap's two events. */
  lemma StepRequests(events: seq<Event>, rest: seq<Event>, req: Request)
    requires events == [Sleep(CrawlDelay), Fetch(req)]
    ensures Requests(events) == [req]
    ensures Requests(events + rest) == [req] + Requests(rest)
  {
    RequestsAppend(events, rest);
  }

  /** The collected links are the first `max` links of all posts
      sub-sitemaps taken together, after those collected before. */
  lemma {:induction false} CollectedLinksAreCappedConcat(
    subs: seq<string>, fetch: string -> seq<string>, max: int, acc: seq<string>)
    requires |acc| < max
    ensures CollectFrom(subs, fetch, max, acc).links == Take(acc + Flatten(fetch, Posts(subs)), max)
    decreases |subs|
  {
    var all := acc + Flatten(fetch, Posts(subs));
    if |subs| == 0 {
      PrefixByLength(Take(acc, max), acc, |acc|);
    } else if !IsPostsSitemap(subs[0]) {
      CollectedLinksAreCappedConcat(subs[1..], fetch, max, acc);
    } else {
      var f := fetch(subs[0]);
      var budget := max - |acc|;
      var links := acc + ArticleLinks(f, budget);
      assert Posts(subs) == [subs[0]] + Posts(subs[1..]);
      assert Flatten(fetch, Posts(subs)) == f + Flatten(fetch, Posts(subs[1..]));
      assert all == acc + f + Flatten(fetch, Posts(subs[1..]));
      PrefixByLength(Take(all, max), all, |Take(all, max)|);
      if |links| >= max {
        assert |f| >= budget;
        assert links == all[..max];
      } else {
        assert ArticleLinks(f, budget) == f;
        CollectedLinksAreCappedConcat(subs[1..], fetch, max, links);
      }
    }
  }

  /** Every sub-sitemap fetch comes right after its own crawl delay. */
  lemma {:induction false} CollectIsPaced(
    subs: seq<string>, fetch: string -> seq<string>, max: int, acc: seq<string>)
    requires |acc| < max
    ensures Paced(CollectFrom(subs, fetch, max, acc).log)
    decreases |subs|
  {
    if |subs| == 0 {
    } else if !IsPostsSitemap(subs[0]) {
      CollectIsPaced(subs[1..], fetch, max, acc);
    } else {
      var budget := max - |acc|;
      var links := acc + ArticleLinks(fetch(subs[0]), budget);
      var events := [Sleep(CrawlDelay), Fetch(Request(subs[0], budget))];
      if |links| < max {
        var rest := CollectFrom(subs[1..], fetch, max, links);
        CollectIsPaced(subs[1..], fetch, max, links);
        assert (events + rest.log)[2..] == rest.log;
      } else {
        assert events[2..] == [];
      }
    }
  }

  /** The sub-sitemaps fetched are the posts sub-sitemaps, in order, up to
      some point: no other sub-sitemap is ever fetched, none is fetched twice
      and none is skipped before the loop stops. */
  lemma {:induction false} FetchedArePostsPrefix(
    subs: seq<string>, fetch: string -> seq<string>, max: int, acc: seq<string>)
    requires |acc| < max
    ensures Urls(Requests(CollectFrom(subs, fetch, max, acc).log)) <= Posts(subs)
    decreases |subs|
  {
    if |subs| == 0 {
    } else if !IsPostsSitemap(subs[0]) {
      FetchedArePostsPrefix(subs[1..], fetch, max, acc);
    } else {
      var budget := max - |acc|;
      var req := Request(subs[0], budget);
      var links := acc + ArticleLinks(fetch(subs[0]), budget);
      var events := [Sleep(CrawlDelay), Fetch(req)];
      assert Posts(subs) == [subs[0]] + Posts(subs[1..]);
      if |links| >= max {
        StepRequests(events, [], req);
      } else {
        var rest := CollectFrom(subs[1..], fetch, max, links);
        StepRequests(events, rest.log, req);
        FetchedArePostsPrefix(subs[1..], fetch, max, links);
        assert Urls([req] + Requests(rest.log)) == [subs[0]] + Urls(Requests(rest.log));
      }
    }
  }

  /** A fetch that fills the budget completes the first `max` links of
      `acc` followed by that sub-sitemap's links. */
  lemma FillingFetch(acc: seq<string>, f: seq<string>, max: int)
    requires |acc| < max
    requires |acc + ArticleLinks(f, max - |acc|)| >= max
    ensures acc + ArticleLinks(f, max - |acc|) == Take(acc + f, max)
  {
    PrefixByLength(Take(acc + f, max), acc + f, max);
    assert acc + ArticleLinks(f, max - |acc|) == (acc + f)[..max];
  }

  /** The links of the sub-sitemaps of one request followed by others. */
  lemma FlattenAfterRequest(fetch: string -> seq<string>, req: Request, rs: seq<Request>)
    ensures Flatten(fetch, Urls([req] + rs)) == fetch(req.url) + Flatten(fetch, Urls(rs))
  {
    var us := Urls(rs);
    assert Urls([req] + rs) == [req.url] + us;
    assert ([req.url] + us)[1..] == us;
  }

  /** The links of a crawl from `acc` are the first `max` of `acc` followed
      by the links of the sub-sitemaps it fetched. */
  predicate FromFetched(fetch: string -> seq<string>, max: int, acc: seq<string>, r: Crawl) {
    r.links == Take(acc + Flatten(fetch, Urls(Requests(r.log))), max)
  }

  /** A posts sub-sitemap that fills the budget ends the crawl with links
      from its own fetch. */
  lemma FullStep(subs: seq<string>, fetch: string -> seq<string>, max: int, acc: seq<string>)
    requires |subs| > 0 && IsPostsSitemap(subs[0]) && |acc| < max
    requires |acc + ArticleLinks(fetch(subs[0]), max - |acc|)| >= max
    ensures FromFetched(fetch, max, acc, CollectFrom(subs, fetch, max, acc))
  {
    var f := fetch(subs[0]);
    var req := Request(subs[0], max - |acc|);
    var events := [Sleep(CrawlDelay), Fetch(req)];
    StepRequests(events, [], req);
    FlattenAfterRequest(fetch, req, []);
    assert f + [] == f;
    FillingFetch(acc, f, max);
  }

  /** A posts sub-sitemap below the budget passes its links on to the rest
      of the crawl. */
  lemma ContinueStep(subs: seq<string>, fetch: string -> seq<string>, max: int, acc: seq<string>)
    requires |subs| > 0 && IsPostsSitemap(subs[0]) && |acc| < max
    requires |acc + ArticleLinks(fetch(subs[0]), max - |acc|)| < max
    requires var links := acc + ArticleLinks(fetch(subs[0]), max - |acc|);
      FromFetched(fetch, max, links, CollectFrom(subs[1..], fetch, max, links))
    ensures FromFetched(fetch, max, acc, CollectFrom(subs, fetch, max, acc))
  {
    var f := fetch(subs[0]);
    var req := Request(subs[0], max - |acc|);
    var events := [Sleep(CrawlDelay), Fetch(req)];
    var links := acc + ArticleLinks(f, max - |acc|);
    var rest := CollectFrom(subs[1..], fetch, max, links);
    var later := Flatten(fetch, Urls(Requests(rest.log)));
    StepRequests(events, rest.log, req);
    FlattenAfterRequest(fetch, req, Requests(rest.log));
    assert ArticleLinks(f, max - |acc|) == f;
    assert acc + (f + later) == links + later;
  }

  /** The links come from the sub-sitemaps actually fetched: they are the
      first `max` links of `acc` followed by the links of every fetched
      sub-sitemap, in the order they were fetched. */
  lemma {:induction false} LinksComeFromFetched(
    subs: seq<string>, fetch: string -> seq<string>, max: int, acc: seq<string>)
    requires |acc| < max
    ensures var r := CollectFrom(subs, fetch, max, acc);
      r.links == Take(acc + Flatten(fetch, Urls(Requests(r.log))), max)
    decreases |subs|
  {
    if |subs| == 0 {
      assert acc + [] == acc;
      PrefixByLength(Take(acc, max), acc, |acc|);
    } else if !IsPostsSitemap(subs[0]) {
      LinksComeFromFetched(subs[1..], fetch, max, acc);
    } else {
      var links := acc + ArticleLinks(fetch(subs[0]), max - |acc|);
      if |links| >= max {
        FullStep(subs, fetch, max, acc);
      } else {
        LinksComeFromFetched(subs[1..], fetch, max, links);
        ContinueStep(subs, fetch, max, acc);
      }
    }
  }

  /** The loop stops early only once the budget is used up: when some posts
      sub-sitemap was never fetched, exactly `max` links were collected, and
      the sub-sitemaps fetched did supply at least that many. */
  lemma {:induction false} StopsOnlyWhenFull(
    subs: seq<string>, fetch: string -> seq<string>, max: int, acc: seq<string>)
    requires |acc| < max
    ensures var r := CollectFrom(subs, fetch, max, acc);
      |Requests(r.log)| < |Posts(subs)| ==> |r.links| == max
    ensures var r := CollectFrom(subs, fetch, max, acc);
      |Requests(r.log)| < |Posts(subs)| ==> |acc| + |Flatten(fetch, Urls(Requests(r.log)))| >= max
    decreases |subs|
  {
    LinksComeFromFetched(subs, fetch, max, acc);
    if |subs| == 0 {
    } else if !IsPostsSitemap(subs[0]) {
      StopsOnlyWhenFull(subs[1..], fetch, max, acc);
    } else {
      var budget := max - |acc|;
      var req := Request(subs[0], budget);
      var links := acc + ArticleLinks(fetch(subs[0]), budget);
      var events := [Sleep(CrawlDelay), Fetch(req)];
      assert Posts(subs) == [subs[0]] + Posts(subs[1..]);
      if |links| < max {
        var rest := CollectFrom(subs[1..], fetch, max, links);
        StepRequests(events, rest.log, req);
        StopsOnlyWhenFull(subs[1..], fetch, max, links);
      }
    }
  }

  /** Each request in `rs` asks for what is left of `left` after the links
      of the sub-sitemaps requested before it, and that is at least one. */
  predicate AsksForRemainder(rs: seq<Request>, fetch: string -> seq<string>, left: int) {
    forall i :: 0 <= i < |rs| ==>
      && rs[i].budget == left - |Flatten(fetch, Urls(rs[..i]))|
      && 1 <= rs[i].budget <= left
  }

  /** Each request asks for exactly what is left of the budget after the
      links of the sub-sitemaps fetched before it, and that is always at
      least one link: the loop stops as soon as the budget is used up. */
  lemma {:induction false} BudgetsAreRemainders(
    subs: seq<string>, fetch: string -> seq<string>, max: int, acc: seq<string>)
    requires |acc| < max
    ensures AsksForRemainder(Requests(CollectFrom(subs, fetch, max, acc).log), fetch, max - |acc|)
    decreases |subs|
  {
    if |subs| == 0 {
    } else if !IsPostsSitemap(subs[0]) {
      BudgetsAreRemainders(subs[1..], fetch, max, acc);
    } else {
      var f := fetch(subs[0]);
      var budget := max - |acc|;
      var req := Request(subs[0], budget);
      var links := acc + ArticleLinks(f, budget);
      var events := [Sleep(CrawlDelay), Fetch(req)];
      if |links| >= max {
        StepRequests(events, [], req);
        assert [req][..0] == [];
      } else {
        var rest := CollectFrom(subs[1..], fetch, max, links);
        var rs' := Requests(rest.log);
        var rs := [req] + rs';
        StepRequests(events, rest.log, req);
        BudgetsAreRemainders(subs[1..], fetch, max, links);
        assert ArticleLinks(f, budget) == f;
        assert |links| == |acc| + |f|;
        forall i | 0 <= i < |rs|
          ensures rs[i].budget == budget - |Flatten(fetch, Urls(rs[..i]))|
          ensures 1 <= rs[i].budget <= budget
        {
          if i == 0 {
            assert rs[..0] == [];
          } else {
            assert rs[i] == rs'[i - 1];
            assert rs'[i - 1].budget == max - |links| - |Flatten(fetch, Urls(rs'[..i - 1]))|;
            assert rs[..i] == [req] + rs'[..i - 1];
            assert Urls(rs[..i]) == [subs[0]] + Urls(rs'[..i - 1]);
            assert Flatten(fetch, Urls(rs[..i])) == f + Flatten(fetch, Urls(rs'[..i - 1]));
          }
        }
      }
    }
  }

  /** Starting from no links, the links are the first `max` links of the
      fetched sub-sitemaps, and an early stop means these supplied `max`. */
  lemma FetchedSupplyLinks(subs: seq<string>, fetch: string -> seq<string>, max: int)
    requires max >= 1
    ensures var r := Collect(subs, fetch, max);
      && r.links == Take(Flatten(fetch, Urls(Requests(r.log))), max)
      && (|Requests(r.log)| < |Posts(subs)| ==> |Flatten(fetch, Urls(Requests(r.log)))| >= max)
  {
    var r := Collect(subs, fetch, max);
    var fetched := Flatten(fetch, Urls(Requests(r.log)));
    LinksComeFromFetched(subs, fetch, max, []);
    StopsOnlyWhenFull(subs, fetch, max, []);
    assert [] + fetched == fetched;
  }

  /** The properties of the whole loop of `main`, starting from no links. */
  lemma CollectProperties(subs: seq<string>, fetch: string -> seq<string>, max: int)
    requires max >= 1
    ensures var r := Collect(subs, fetch, max);
      && r.links == Take(Flatten(fetch, Posts(subs)), max)
      && Paced(r.log)
      && Urls(Requests(r.log)) <= Posts(subs)
      && r.links == Take(Flatten(fetch, Urls(Requests(r.log))), max)
      && (|Requests(r.log)| < |Posts(subs)| ==> |r.links| == max)
      && (|Requests(r.log)| < |Posts(subs)| ==> |Flatten(fetch, Urls(Requests(r.log)))| >= max)
      && AsksForRemainder(Requests(r.log), fetch, max)
  {
    FetchedSupplyLinks(subs, fetch, max);
    CollectedLinksAreCappedConcat(subs, fetch, max, []);
    CollectIsPaced(subs, fetch, max, []);
    FetchedArePostsPrefix(subs, fetch, max, []);
    StopsOnlyWhenFull(subs, fetch, max, []);
    BudgetsAreRemainders(subs, fetch, max, []);
  }

  /** Before sub-sitemap `i` is visited, the links are all links of the posts
      sub-sitemaps among the first `i`, and exactly those were fetched. */
  predicate Visited(subs: seq<string>, fetch: string -> seq<string>, i: int, links: seq<string>, log: seq<Event>)
    requires 0 <= i <= |subs|
  {
    && links == Flatten(fetch, Posts(subs[..i]))
    && Urls(Requests(log)) == Posts(subs[..i])
  }

  /** Visiting sub-sitemap `i` extends the links and the fetched URLs of the
      sub-sitemaps before it by its own, if it holds posts, and by nothing
      otherwise. */
  lemma VisitExtendsHistory(
    subs: seq<string>, i: int, fetch: string -> seq<string>, links: seq<string>, log: seq<Event>, budget: int)
    requires 0 <= i < |subs|
    requires Visited(subs, fetch, i, links, log)
    ensures IsPostsSitemap(subs[i]) ==>
      Visited(subs, fetch, i + 1, links + fetch(subs[i]), log + [Sleep(CrawlDelay)] + [Fetch(Request(subs[i], budget))])
    ensures !IsPostsSitemap(subs[i]) ==> Visited(subs, fetch, i + 1, links, log)
  {
    var sub := subs[i];
    assert subs[..i + 1] == subs[..i] + [sub];
    PostsAppend(subs[..i], [sub]);
    PostsSingle(sub);
    if IsPostsSitemap(sub) {
      var req := Request(sub, budget);
      var events := [Sleep(CrawlDelay), Fetch(req)];
      FlattenAppend(fetch, Posts(subs[..i]), [sub]);
      assert Flatten(fetch, [sub]) == fetch(sub) by {
        assert [sub][1..] == [];
      }
      StepRequests(events, [], req);
      RequestsAppend(log, events);
      assert log + [Sleep(CrawlDelay)] + [Fetch(req)] == log + events;
      assert Urls(Requests(log) + [req]) == Urls(Requests(log)) + [sub];
    } else {
      assert Posts(subs[..i]) + [] == Posts(subs[..i]);
    }
  }

  lemma PostsOfAppend(fetch: string -> seq<string>, a: seq<string>, b: seq<string>)
    ensures Posts(a) <= Posts(a + b)
    ensures Flatten(fetch, Posts(a)) <= Flatten(fetch, Posts(a + b))
  {
    PostsAppend(a, b);
    FlattenAppend(fetch, Posts(a), Posts(b));
    PrefixOfAppend(Posts(a), Posts(b));
    PrefixOfAppend(Flatten(fetch, Posts(a)), Flatten(fetch, Posts(b)));
  }

  /** The posts among the first `j` sub-sitemaps, and their links, start the
      posts of the whole index and their links. */
  lemma PostsOfPrefix(subs: seq<string>, fetch: string -> seq<string>, j: int)
    requires 0 <= j <= |subs|
    ensures Posts(subs[..j]) <= Posts(subs)
    ensures Flatten(fetch, Posts(subs[..j])) <= Flatten(fetch, Posts(subs))
  {
    SplitAt(subs, j);
    PostsOfAppend(fetch, subs[..j], subs[j..]);
  }

  /** After visiting the first `i` sub-sitemaps with `links` and `log` so far,
      resuming the loop from sub-sitemap `i` finishes the whole loop. */
  predicate Resumes(subs: seq<string>, fetch: string -> seq<string>, max: int, i: int, links: seq<string>, log: seq<Event>)
    requires 0 <= i <= |subs| && |links| < max
  {
    var rest := CollectFrom(subs[i..], fetch, max, links);
    max >= 1 && Collect(subs, fetch, max) == Crawl(rest.links, log + rest.log)
  }

  /** One iteration of the loop keeps `Resumes`, or, when it breaks, has
      finished the whole loop. */
  lemma ResumeStep(subs: seq<string>, fetch: string -> seq<string>, max: int, i: int, links: seq<string>, log: seq<Event>)
    requires 0 <= i < |subs| && |links| < max
    requires Resumes(subs, fetch, max, i, links, log)
    ensures !IsPostsSitemap(subs[i]) ==> Resumes(subs, fetch, max, i + 1, links, log)
    ensures IsPostsSitemap(subs[i]) ==>
      var budget := max - |links|;
      var links' := links + ArticleLinks(fetch(subs[i]), budget);
      var log' := log + [Sleep(CrawlDelay)] + [Fetch(Request(subs[i], budget))];
      && (|links'| >= max ==> Collect(subs, fetch, max) == Crawl(links', log'))
      && (|links'| < max ==> Resumes(subs, fetch, max, i + 1, links', log'))
  {
    assert subs[i..][0] == subs[i] && subs[i..][1..] == subs[i + 1..];
  }

  /** Resuming past the last sub-sitemap adds nothing. */
  lemma ResumeDone(subs: seq<string>, fetch: string -> seq<string>, max: int, links: seq<string>, log: seq<Event>)
    requires |links| < max
    requires Resumes(subs, fetch, max, |subs|, links, log)
    ensures Collect(subs, fetch, max) == Crawl(links, log)
  {
    assert subs[|subs|..] == [];
    assert log + [] == log;
  }

  /** The loop has finished: it computed the recursive definition, fetched
      posts sub-sitemaps only and in index order, and collected links in the
      order the posts sub-sitemaps list them. */
  predicate Finished(subs: seq<string>, fetch: string -> seq<string>, max: int, links: seq<string>, log: seq<Event>)
    requires max >= 1
  {
    && Crawl(links, log) == Collect(subs, fetch, max)
    && Urls(Requests(log)) <= Posts(subs)
    && links <= Flatten(fetch, Posts(subs))
  }

  /** The loop's invariant before sub-sitemap `i`: the budget is not used up,
      the sub-sitemaps before `i` have been visited, and the rest of the loop
      finishes the recursive definition. */
  predicate Walking(subs: seq<string>, fetch: string -> seq<string>, max: int, i: int, links: seq<string>, log: seq<Event>) {
    && 0 <= i <= |subs|
    && |links| < max
    && Visited(subs, fetch, i, links, log)
    && Resumes(subs, fetch, max, i, links, log)
  }

  /** One iteration that does not break keeps the loop invariant. */
  lemma NextVisit(subs: seq<string>, fetch: string -> seq<string>, max: int, i: int, links: seq<string>, log: seq<Event>)
    requires i < |subs|
    requires Walking(subs, fetch, max, i, links, log)
    ensures
      var sub, budget := subs[i], max - |links|;
      var links' := if IsPostsSitemap(sub) then links + ArticleLinks(fetch(sub), budget) else links;
      var log' := if IsPostsSitemap(sub) then log + [Sleep(CrawlDelay)] + [Fetch(Request(sub, budget))] else log;
      |links'| < max ==> Walking(subs, fetch, max, i + 1, links', log')
  {
    var sub, budget := subs[i], max - |links|;
    ResumeStep(subs, fetch, max, i, links, log);
    VisitExtendsHistory(subs, i, fetch, links, log, budget);
    if IsPostsSitemap(sub) && |links + ArticleLinks(fetch(sub), budget)| < max {
      assert ArticleLinks(fetch(sub), budget) == fetch(sub);
    }
  }

  /** Breaking out after a posts sub-sitemap fills the budget finishes the loop. */
  lemma BreakFinishes(subs: seq<string>, fetch: string -> seq<string>, max: int, i: int, links: seq<string>, log: seq<Event>)
    requires i < |subs|
    requires Walking(subs, fetch, max, i, links, log)
    requires IsPostsSitemap(subs[i])
    requires |links + ArticleLinks(fetch(subs[i]), max - |links|)| >= max
    ensures Finished(subs, fetch, max,
      links + ArticleLinks(fetch(subs[i]), max - |links|),
      log + [Sleep(CrawlDelay)] + [Fetch(Request(subs[i], max - |links|))])
  {
    var budget := max - |links|;
    var links', log' := links + ArticleLinks(fetch(subs[i]), budget), log + [Sleep(CrawlDelay)] + [Fetch(Request(subs[i], budget))];
    ResumeStep(subs, fetch, max, i, links, log);
    assert Crawl(links', log') == Collect(subs, fetch, max);
    VisitExtendsHistory(subs, i, fetch, links, log, budget);
    PostsOfPrefix(subs, fetch, i + 1);
    var whole := links + fetch(subs[i]);
    assert links' <= whole;
    PrefixTrans(links', whole, Flatten(fetch, Posts(subs)));
  }

  /** Running past the last sub-sitemap finishes the loop. */
  lemma EndFinishes(subs: seq<string>, fetch: string -> seq<string>, max: int, links: seq<string>, log: seq<Event>)
    requires Walking(subs, fetch, max, |subs|, links, log)
    ensures Finished(subs, fetch, max, links, log)
  {
    ResumeDone(subs, fetch, max, links, log);
    PostsOfPrefix(subs, fetch, |subs|);
  }

  /** What a finished loop has collected and logged. */
  lemma FinishedProperties(subs: seq<string>, fetch: string -> seq<string>, max: int, links: seq<string>, log: seq<Event>)
    requires max >= 1
    requires Finished(subs, fetch, max, links, log)
    ensures links == Take(Flatten(fetch, Posts(subs)), max)
    ensures |links| <= max
    ensures Paced(log)
    ensures links == Take(Flatten(fetch, Urls(Requests(log))), max)
    ensures |Requests(log)| < |Posts(subs)| ==> |links| == max
    ensures |Requests(log)| < |Posts(subs)| ==> |Flatten(fetch, Urls(Requests(log)))| >= max
    ensures AsksForRemainder(Requests(log), fetch, max)
  {
    CollectProperties(subs, fetch, max);
  }

  /** The collection loop of `main`, with the sleep and each sub-sitemap
      fetch recorded in `log`, as the program writes it. */
  method CollectLoop(subs: seq<string>, fetch: string -> seq<string>, max: int)
    returns (links: seq<string>, log: seq<Event>)
    requires max >= 1
    ensures Finished(subs, fetch, max, links, log)
  {
    links := [];
    log := [];
    var i := 0;
    while i < |subs|
      invariant Walking(subs, fetch, max, i, links, log)
    {
      var sub := subs[i];
      if IsPostsSitemap(sub) {
        ghost var linksBefore, logBefore := links, log;
        log := log + [Sleep(CrawlDelay)];
        var budget := max - |links|;
        var newLinks := ArticleLinks(fetch(sub), budget);
        log := log + [Fetch(Request(sub, budget))];
        links := links + newLinks;
        if |links| >= max {
          BreakFinishes(subs, fetch, max, i, linksBefore, logBefore);
          break;
        }
        NextVisit(subs, fetch, max, i, linksBefore, logBefore);
      } else {
        NextVisit(subs, fetch, max, i, links, log);
      }
      i := i + 1;
    }
    if i == |subs| {
      EndFinishes(subs, fetch, max, links, log);
    }
  }

  /** The collection loop of `main` together with everything it guarantees
      about the links it returns and the requests it makes. */
  method CollectLinks(subs: seq<string>, fetch: string -> seq<string>, max: int)
    returns (links: seq<string>, log: seq<Event>)
    requires max >= 1
    ensures Crawl(links, log) == Collect(subs, fetch, max)
    ensures links == Take(Flatten(fetch, Posts(subs)), max)
    ensures |links| <= max
    ensures Paced(log)
    ensures Urls(Requests(log)) <= Posts(subs)
    ensures links == Take(Flatten(fetch, Urls(Requests(log))), max)
    ensures |Requests(log)| < |Posts(subs)| ==> |links| == max
    ensures |Requests(log)| < |Posts(subs)| ==> |Flatten(fetch, Urls(Requests(log)))| >= max
    ensures AsksForRemainder(Requests(log), fetch, max)
  {
    links, log := CollectLoop(subs, fetch, max);
    FinishedProperties(subs, fetch, max, links, log);
  }
}
