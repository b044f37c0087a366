/** The run of `main`: collect article links, then scrape each one in order.
    `pages(url)` stands for fetching and parsing the article at `url`. */
module Pipeline {
  import opened Wrappers
  import opened Text
  import opened Sitemap
  import opened Article

  /** The scrape phase, one page after the other; the first raised error
      ends the run and no records are kept. */
  function ScrapeAll(urls: seq<string>, pages: string -> Page): (r: Result<seq<ArticleRecord>, ScrapeError>)
    ensures r.Failure? <==> exists i :: 0 <= i < |urls| && Scrape(urls[i], pages(urls[i])).Failure?
    ensures r.Success? ==> |r.value| == |urls|
    ensures r.Success? ==> forall i :: 0 <= i < |urls| ==>
      r.value[i].url == urls[i] && Scrape(urls[i], pages(urls[i])) == Success(r.value[i])
    ensures r.Failure? ==> exists i :: (
      && 0 <= i < |urls|
      && Scrape(urls[i], pages(urls[i])) == Failure(r.error)
      && forall j :: 0 <= j < i ==> Scrape(urls[j], pages(urls[j])).Success?)
    decreases |urls|
  {
    if |urls| == 0 then Success([])
    else
      var first :- Scrape(urls[0], pages(urls[0]));
      var rest :- ScrapeAll(urls[1..], pages);
      Success([first] + rest)
  }

  /** `main` without writing the file: the records it would save, or the
      error that aborts it. */
  method Run(sitemapLinks: seq<string>, fetch: string -> seq<string>, pages: string -> Page, max: int)
    returns (records: Result<seq<ArticleRecord>, ScrapeError>)
    requires max >= 1
    ensures records.Success? ==> |records.value| <= max
    ensures records.Success? ==>
      var links := Take(Flatten(fetch, Posts(sitemapLinks)), max);
      && |records.value| == |links|
      && forall i :: 0 <= i < |links| ==>
        records.value[i].url == links[i] && Scrape(links[i], pages(links[i])) == Success(records.value[i])
    ensures records.Failure? <==> exists u :: (
      && u in Take(Flatten(fetch, Posts(sitemapLinks)), max)
      && Scrape(u, pages(u)).Failure?)
    ensures records.Failure? ==>
      var links := Take(Flatten(fetch, Posts(sitemapLinks)), max);
      exists i :: (
        && 0 <= i < |links|
        && Scrape(links[i], pages(links[i])) == Failure(records.error)
        && forall j :: 0 <= j < i ==> Scrape(links[j], pages(links[j])).Success?)
  {
    var links, log := CollectLinks(sitemapLinks, fetch, max);
    records := ScrapeAll(links, pages);
  }

  /** The scenario of a posts sub-sitemap with 3 links and an archive
      sub-sitemap with 5, under a budget of 4: only the posts sub-sitemap is
      fetched and its 3 links are collected in order. */
  lemma OnePostsSitemapScenario()
    ensures var fetch := (u: string) => if u == "posts/2024" then ["a", "b", "c"] else ["d", "e", "f", "g", "h"];
      var r := Collect(["posts/2024", "archive"], fetch, 4);
      && r.links == ["a", "b", "c"]
      && Requests(r.log) == [Request("posts/2024", 4)]
  {
    var fetch := (u: string) => if u == "posts/2024" then ["a", "b", "c"] else ["d", "e", "f", "g", "h"];
    var subs := ["posts/2024", "archive"];
    assert IsPostsSitemap(subs[0]) by {
      assert PostsMarker <= subs[0];
    }
    assert !IsPostsSitemap(subs[1]) by {
      var a := subs[1];
      assert !Contains(a[7..], PostsMarker);
      assert !Contains(a[6..], PostsMarker) by { assert a[6..][1..] == a[7..]; }
      assert !Contains(a[5..], PostsMarker) by { assert a[5..][1..] == a[6..]; }
      assert !Contains(a[4..], PostsMarker) by { assert a[4..][1..] == a[5..]; }
      assert !Contains(a[3..], PostsMarker) by { assert a[3..][1..] == a[4..]; }
      assert !Contains(a[2..], PostsMarker) by { assert a[2..][1..] == a[3..] && a[2..][0] != 'p'; }
      assert !Contains(a[1..], PostsMarker) by { assert a[1..][1..] == a[2..] && a[1..][0] != 'p'; }
      assert a[0] != 'p';
    }
    var links := ArticleLinks(fetch(subs[0]), 4);
    assert links == ["a", "b", "c"];
    var events := [Sleep(CrawlDelay), Fetch(Request(subs[0], 4))];
    assert subs[1..] == ["archive"] && subs[1..][1..] == [];
    assert CollectFrom(subs[1..], fetch, 4, links) == Crawl(links, []);
    assert Collect(subs, fetch, 4) == Crawl(links, events + []);
    StepRequests(events, [], Request(subs[0], 4));
  }
}
