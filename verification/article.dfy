/** The page scraper: from one fetched article page to one output record.
    The HTTP response and the HTML parser are abstracted into a `Page` value
    holding the status code and the facts the parser would report. */
module Article {
  import opened Wrappers
  import opened Text

  /** The only status code the scraper accepts as a successful fetch. */
  const OkStatus := 200
  const FailureMessage := "Failed to retrieve the page"
  const NoTitle := "No title found"
  const NoDate := "No date found"
  const NoAuthor := "No author found"
  /** Content is cut to this many characters. */
  const ContentLimit := 2000
  const ParagraphSeparator := '\n'

  /** A `<meta>` lookup: no such tag, or a tag whose `content` attribute
      may itself be missing. */
  datatype MetaTag = Absent | Present(content: Option<string>)

  /** What one page fetch yields: the status code and, from the parsed HTML,
      the text of the first `<title>`, the `article:published_time` and
      `author` meta tags, and the text of every `<p>` in document order. */
  datatype Page = Page(
    status: int,
    title: Option<string>,
    publishedTime: MetaTag,
    author: MetaTag,
    paragraphs: seq<string>)

  /** One output record: success-shaped or error-shaped, never both. */
  datatype ArticleRecord =
    | Scraped(url: string, title: string, date: string, author: string, content: string)
    | Failed(url: string, error: string)

  /** Which meta tag a lookup was for. */
  datatype MetaKind = PublishedTime | AuthorName

  /** The `KeyError` raised when a meta tag is found but has no `content`
      attribute; nothing catches it, so it ends the whole run. */
  datatype ScrapeError = MissingContent(meta: MetaKind)

  /** Reads a meta tag's `content`, falling back to `fallback` when the tag
      is absent and failing when the tag lacks the attribute. */
  function MetaValue(tag: MetaTag, kind: MetaKind, fallback: string): (r: Result<string, ScrapeError>)
    ensures r.Failure? <==> tag == Present(None)
    ensures r.Failure? ==> r.error == MissingContent(kind)
    ensures tag.Absent? ==> r == Success(fallback)
    ensures tag.Present? && tag.content.Some? ==> r == Success(tag.content.value)
  {
    match tag
    case Absent => Success(fallback)
    case Present(content) =>
      match content
      case Some(v) => Success(v)
      case None => Failure(MissingContent(kind))
  }

  /** The record's body text: the paragraphs joined by newlines, cut to
      `ContentLimit` characters. */
  function Content(paragraphs: seq<string>): (r: string)
    ensures r <= Join(paragraphs, [ParagraphSeparator])
    ensures |r| == Min(ContentLimit, |Join(paragraphs, [ParagraphSeparator])|)
    ensures |Join(paragraphs, [ParagraphSeparator])| <= ContentLimit ==> r == Join(paragraphs, [ParagraphSeparator])
  {
    SliceTo(Join(paragraphs, [ParagraphSeparator]), ContentLimit)
  }

  /** `scrape_medium_article` once the page has been fetched and parsed. */
  function Scrape(url: string, page: Page): (r: Result<ArticleRecord, ScrapeError>)
    // the status decides the shape; a non-200 page is never parsed
    ensures page.status != OkStatus ==> r == Success(Failed(url, FailureMessage))
    ensures page.status == OkStatus ==> r.Failure? || r.value.Scraped?
    // only a meta tag without `content` raises, the date lookup first
    ensures r.Failure? <==> page.status == OkStatus && (page.publishedTime == Present(None) || page.author == Present(None))
    ensures r.Failure? && page.publishedTime == Present(None) ==> r.error == MissingContent(PublishedTime)
    ensures r.Failure? && page.publishedTime != Present(None) ==> r.error == MissingContent(AuthorName)
    // every record carries the page's own url
    ensures r.Success? ==> r.value.url == url
    // each field falls back on its own, and a present value passes unchanged
    ensures r.Success? && r.value.Scraped? ==>
      && (page.title.None? ==> r.value.title == NoTitle)
      && (page.title.Some? ==> r.value.title == page.title.value)
      && (page.publishedTime.Absent? ==> r.value.date == NoDate)
      && (page.publishedTime.Present? ==> Some(r.value.date) == page.publishedTime.content)
      && (page.author.Absent? ==> r.value.author == NoAuthor)
      && (page.author.Present? ==> Some(r.value.author) == page.author.content)
      && r.value.content == Content(page.paragraphs)
  {
    if page.status != OkStatus then Success(Failed(url, FailureMessage))
    else
      var title := page.title.GetOr(NoTitle);
      var date :- MetaValue(page.publishedTime, PublishedTime, NoDate);
      var author :- MetaValue(page.author, AuthorName, NoAuthor);
      Success(Scraped(url, title, date, author, Content(page.paragraphs)))
  }

  const SuccessKeys := ["url", "title", "date", "author", "content"]
  const ErrorKeys := ["url", "error"]

  /** The keys of a dictionary given as its (key, value) pairs in insertion order. */
  function Keys(fields: seq<(string, string)>): (r: seq<string>)
    ensures |r| == |fields|
    ensures forall i :: 0 <= i < |fields| ==> r[i] == fields[i].0
    decreases |fields|
  {
    if |fields| == 0 then [] else [fields[0].0] + Keys(fields[1..])
  }

  /** Reads a record back from dictionary fields; only the two shapes the
      scraper builds, with their keys in its order, are records. */
  function FromFields(fields: seq<(string, string)>): (r: Option<ArticleRecord>)
    ensures r.Some? <==> Keys(fields) == ErrorKeys || Keys(fields) == SuccessKeys
    ensures r.Some? ==> r.value.url == fields[0].1 && (r.value.Failed? <==> Keys(fields) == ErrorKeys)
  {
    if Keys(fields) == ErrorKeys then Some(Failed(fields[0].1, fields[1].1))
    else if Keys(fields) == SuccessKeys then
      Some(Scraped(fields[0].1, fields[1].1, fields[2].1, fields[3].1, fields[4].1))
    else None
  }

  /** The dictionary the scraper returns for a record, as (key, value) pairs
      in insertion order, which is the order they are serialised in. */
  function Fields(record: ArticleRecord): (fields: seq<(string, string)>)
    ensures record.Failed? <==> Keys(fields) == ErrorKeys
    ensures record.Scraped? <==> Keys(fields) == SuccessKeys
    ensures fields[0] == ("url", record.url)
    ensures FromFields(fields) == Some(record)
  {
    match record
    case Failed(url, error) => [("url", url), ("error", error)]
    case Scraped(url, title, date, author, content) =>
      [("url", url), ("title", title), ("date", date), ("author", author), ("content", content)]
  }
}
