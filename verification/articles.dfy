/** The data of the founder-article curation script: the configured feeds,
    the entries a feed parse yields, the judgment of the text-generation
    service, and the records persisted in founder_articles.json. */
module Articles {
  import opened Wrappers

  /** One entry of a parsed feed. The feed parser may omit `published`. */
  datatype Entry = Entry(title: string, link: string, published: Option<string>)

  /** One configured feed: the founder's display name and the feed address. */
  datatype FeedSource = FeedSource(name: string, url: string)

  /** A configured feed together with the entries its fetch produced, in feed order. */
  datatype Feed = Feed(name: string, entries: seq<Entry>)

  /** The decoded answer of the text-generation service. `highSignal` is the
      truth value of the `high_signal` key (a missing key reads as false);
      `summary` is the `summary` key, which may be missing (JSON null). */
  datatype Judgment = Judgment(highSignal: bool, summary: Option<string>)

  /** One record of founder_articles.json. `snippet` is null when the
      judgment carried no summary. */
  datatype Article = Article(
    title: string,
    url: string,
    snippet: Option<string>,
    founderName: string,
    image: string,
    timestamp: string)

  /** The text-generation service, asked about (title, link, founder name).
      `None` stands for a failed call or a response that does not decode. */
  type Oracle = (string, string, string) -> Option<Judgment>

  /** Only the latest entries of each feed are examined, to save API tokens. */
  const EntriesPerFeed: nat := 3

  /** The persisted list is cut to this many records. */
  const MaxArticles: nat := 50

  /** The image every curated record carries. */
  const PlaceholderImage: string := "https://images.unsplash.com/photo-1519389950473-47ba0277781c"

  /** The configured founder feeds, polled in this order. */
  const FounderFeeds: seq<FeedSource> := [
    FeedSource("Paul Graham", "http://www.aaronsw.com/2002/feeds/pgessays.rss"),
    FeedSource("Sam Altman", "https://blog.samaltman.com/posts.atom"),
    FeedSource("Naval Ravikant", "https://nav.al/feed")
  ]

  function Min(a: nat, b: nat): nat {
    if a <= b then a else b
  }

  /** Python's slice `s[:n]`: the first `n` elements, or all of `s` when it is shorter. */
  function Take<T>(s: seq<T>, n: nat): (r: seq<T>)
    ensures |r| == Min(|s|, n)
    ensures r <= s
  {
    if |s| <= n then s else s[..n]
  }
}
