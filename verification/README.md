# Medium sitemap scraper — Dafny model

This project models the logic of a small scraper (`src/task.py`). The scraper
reads a sitemap index and walks its sub-sitemaps in order. It keeps only those
whose URL contains `"posts"` and collects at most `MAX_ARTICLES` article links
from them, sleeping 2 seconds before each sub-sitemap fetch. It then turns each
article page into one record. A record is either success-shaped
(`url, title, date, author, content`) or error-shaped (`url, error`).

Every network fetch and every parser call is an input to the model:

- `fetch: string -> seq<string>` gives the `<loc>` texts of a sub-sitemap, in document order.
- `pages: string -> Page` gives, for each article URL, the HTTP status and what the HTML
  parser would find. That is the first `<title>` text (an `Option`), the two `<meta>` tags
  (absent, or present with or without a `content` attribute) and the `<p>` texts.
- The list of sub-sitemap URLs from the index is an input `seq<string>`.
- `MAX_ARTICLES` (50 in the source) is a parameter `max >= 1`.

Modules:

- `Wrappers`: `Option` and `Result`.
- `Text`: Python's `s[:n]` (a negative `n` counts from the end), `pat in s`,
  and `sep.join(parts)`. `s.split(c)` appears only as the partner of join:
  joining the pieces of a split gives the string back.
- `Sitemap`: `get_article_links` and the collection loop of `main`.
  The loop's sleeps and fetches are recorded as a log of `Sleep(2)` and
  `Fetch(Request(url, budget))` events.
- `Article`: `scrape_medium_article` over an abstract `Page`. Also the dictionary it
  returns, as (key, value) pairs in insertion order.
- `Pipeline`: the scrape phase of `main` and the whole run.

Points where the code behaves differently from what its comments and structure suggest; the model follows the code:

- Each metadata field is meant to fall back to a sentinel when missing. In the code,
  `date_meta["content"]` and `author_meta["content"]` raise `KeyError` when the
  meta tag exists but has no `content` attribute. Nothing catches that error, so
  it aborts the run and no file is written. `Article.Scrape` returns
  `Failure(MissingContent(..))` in that case. `Pipeline.Run` then returns that
  failure instead of records.
- Only status 200 counts as success (`!= 200` in the code). Every other status,
  other 2xx codes included, gives the error-shaped record.
- Content is cut at 2000 characters, as the code does. The code comment says 1000.

## Model

| member | source | states |
|---|---|---|
| Text.Take | src/task.py:21 | the result is a prefix of the sequence, of length `min(n, len)` for positive `n` and empty otherwise |
| Text.SliceTo | src/task.py:21 | Python's `s[:n]` is a prefix of `s`; its length is `min(n, len)` for `n >= 0` and `max(0, len + n)` for negative `n` |
| Text.ContainsIffOccurs | src/task.py:55 | the substring test `"posts" in url` holds exactly when the marker occurs at some index of the URL |
| Text.JoinLength | src/task.py:44 | a newline join is as long as all paragraphs plus one separator between each two |
| Text.JoinAppend | src/task.py:44 | joining two non-empty lists of paragraphs one after the other gives the two joins with one newline between them, whatever the paragraphs contain |
| Text.JoinSplit | src/task.py:44 | splitting a string at a character and joining the pieces with that character gives the string back |
| Sitemap.ArticleLinks | src/task.py:17-21 | the links returned for a sub-sitemap are a prefix of its `<loc>` list; for a non-negative budget they are exactly the first `min(budget, len)` locs in document order |
| Sitemap.Posts | src/task.py:54-55 | a sub-sitemap of the index is kept exactly when its URL contains `"posts"` |
| Sitemap.PostsAppend | src/task.py:54-55 | the filter keeps index order: the posts of two consecutive stretches of the index are those of the first followed by those of the second |
| Sitemap.CollectFrom | src/task.py:54-61 | the loop only extends the links already collected and never holds more than `max` links |
| Sitemap.CollectedLinksAreCappedConcat | src/task.py:54-61 | the collected links are exactly the first `max` links of all posts sub-sitemaps concatenated in index order |
| Sitemap.CollectIsPaced | src/task.py:55-57 | the log alternates one 2-second sleep and one fetch: each fetch costs exactly one delay, and no delay is spent without a fetch |
| Sitemap.FetchedArePostsPrefix | src/task.py:54-57 | the fetched sub-sitemaps are a prefix of the posts sub-sitemaps in index order, so non-matching entries and those after the stop are never fetched |
| Sitemap.LinksComeFromFetched | src/task.py:57-61 | the collected links are the first `max` of the links already held followed by the links of the sub-sitemaps actually fetched, in fetch order |
| Sitemap.StopsOnlyWhenFull | src/task.py:60-61 | if some posts sub-sitemap was never fetched, the collected count is exactly `max`, and the links held before plus those of the fetched sub-sitemaps number at least `max` |
| Sitemap.BudgetsAreRemainders | src/task.py:57-61 | each request's budget is `max` minus the links of the sub-sitemaps fetched before it, and lies in `[1, max]` |
| Sitemap.FetchedSupplyLinks | src/task.py:52-61 | from no links, the links are the first `max` links of the fetched sub-sitemaps, and an early stop means those supplied at least `max` links |
| Sitemap.CollectProperties | src/task.py:52-61 | from no links: capped concatenation of the posts sub-sitemaps and of the fetched ones, pacing, posts-prefix fetching, the stop rule in both forms and budgets in `[1, max]` together |
| Sitemap.VisitExtendsHistory | src/task.py:54-58 | visiting one more sub-sitemap below the budget appends all its links and its one fetch if its URL contains `"posts"`, and nothing otherwise |
| Sitemap.FinishedProperties | src/task.py:52-61 | once the loop has computed the recursive definition, its links are the first `max` links of the posts concatenation and of the fetched sub-sitemaps' links, its log is paced, it stopped early only once the fetched sub-sitemaps supplied `max` links, and every budget is the remainder |
| Sitemap.CollectLoop | src/task.py:52-61 | the imperative loop with `break` computes the same links and log as the recursive definition; it fetches posts sub-sitemaps only, in index order, and its links start the concatenation of their links |
| Sitemap.CollectLinks | src/task.py:52-61 | the loop's links are the first `max` links of the posts concatenation and of the fetched sub-sitemaps' links, its log is paced, its fetches are a prefix of the posts sub-sitemaps, it stops early only once the fetched sub-sitemaps supplied `max` links, and every budget is the remainder, in `[1, max]` |
| Article.MetaValue | src/task.py:35-40 | a missing meta tag gives the fallback, a present `content` passes through unchanged, and a tag without `content` raises |
| Article.Content | src/task.py:43-47 | the content is a prefix of the newline-joined paragraphs of length `min(2000, len(join))`, and equals the join when that is at most 2000 characters |
| Article.Scrape | src/task.py:24-47 | a non-200 status gives the error record with the fixed message; otherwise title, date and author fall back to their sentinels each on its own, present values pass unchanged, and the url is the page's own |
| Article.Fields | src/task.py:26-47 | the error record's dictionary has exactly the keys `url, error` and the success record's exactly `url, title, date, author, content`; reading the dictionary back gives the record |
| Article.FromFields | src/task.py:26-47 | a dictionary reads back as a record exactly when its keys are the error shape or the success shape in the scraper's order, and the record's url is the `url` value |
| Pipeline.ScrapeAll | src/task.py:64 | one record per collected URL in the same order, each carrying its own URL; the phase fails exactly when some page raises, with the error of the first one that does |
| Pipeline.Run | src/task.py:50-64 | the run yields at most `max` records, one per link of the capped posts concatenation and in its order, each the scraper's record for that link's page; or it fails exactly when one of those pages raises, with the error of the first that does |
| Pipeline.OnePostsSitemapScenario | src/task.py:54-61 | with a `posts/2024` sub-sitemap of 3 links, an `archive` one of 5 and a budget of 4, only the first is fetched, asked for 4 links, and its 3 links are collected in order |

## Left out

- HTTP requests and the `User-Agent` header (src/task.py:7, 12, 18, 25): network I/O; fetched contents and status codes are inputs.
- A web that changes during a run: `fetch` and `pages` are functions, so a URL requested twice gets the same answer both times. This happens for a sub-sitemap listed twice in the index, or for an article URL collected twice and scraped twice at src/task.py:64. The source requests again and could get a different answer, such as a 429 status the second time.
- Transport failures of `requests.get`: they propagate and abort the run; the model's fetch functions are total.
- BeautifulSoup parsing (src/task.py:13-14, 19-20, 29, 32-43): a foreign library; its results are the abstract `fetch` and `Page` inputs.
- `get_sitemap_links` (src/task.py:11-14): it is nothing but a fetch and a parse, so its result is the input list of sub-sitemap URLs.
- `time.sleep(2)` (src/task.py:56): a wall-clock effect, recorded as a `Sleep(2)` event in the log.
- JSON serialisation, the file write and the final console line (src/task.py:67-70): output plumbing. The record's key order is modelled by `Article.Fields`.
- The hard-coded `SITEMAP_URL` (src/task.py:6): configuration only.
- `MAX_ARTICLES` values below 1: the source fixes it at 50, and the model requires `max >= 1`.
