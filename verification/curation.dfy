/** The curation run of curate_founders.py, with the feed fetch, the
    text-generation service and the file system as inputs. */
module Curation {
  import opened Wrappers
  import opened Articles
  import opened Gate

  /** The urls of the loaded articles; built once, before any feed is polled. */
  function UrlIndex(existing: seq<Article>): (index: set<string>)
    ensures forall i :: 0 <= i < |existing| ==> existing[i].url in index
    ensures forall u :: u in index ==> exists i :: 0 <= i < |existing| && existing[i].url == u
  {
    set a | a in existing :: a.url
  }

  /** An entry is admitted when its link is not among the loaded urls and the
      service judges it high signal. */
  predicate Admits(e: Entry, founderName: string, index: set<string>, judge: Oracle)
    ensures Admits(e, founderName, index, judge)
        <==> e.link !in index && judge(e.title, e.link, founderName).Some?
             && judge(e.title, e.link, founderName).value.highSignal
  {
    e.link !in index && GetHighSignalSummary(judge, e.title, e.link, founderName).highSignal
  }

  /** The record written for an admitted entry. */
  function MakeArticle(e: Entry, founderName: string, j: Judgment): (a: Article)
    ensures a.title == e.title && a.url == e.link && a.founderName == founderName
    ensures a.snippet == j.summary && a.image == PlaceholderImage
    ensures e.published.Some? ==> a.timestamp == e.published.value
    ensures e.published.None? ==> a.timestamp == ""
  {
    Article(e.title, e.link, j.summary, founderName, PlaceholderImage, e.published.GetOr(""))
  }

  /** The record for `e`, carrying the summary of its judgment. */
  function Record(e: Entry, founderName: string, judge: Oracle): Article {
    MakeArticle(e, founderName, GetHighSignalSummary(judge, e.title, e.link, founderName))
  }

  /** The admitted records of a run of entries of one feed, in entry order. */
  function AdmitEntries(entries: seq<Entry>, founderName: string, index: set<string>, judge: Oracle): (r: seq<Article>)
    ensures |r| <= |entries|
    ensures forall i :: 0 <= i < |r| ==>
      r[i].url !in index && r[i].founderName == founderName && r[i].image == PlaceholderImage
  {
    if entries == [] then []
    else
      var e := entries[0];
      (if Admits(e, founderName, index, judge) then [Record(e, founderName, judge)] else [])
      + AdmitEntries(entries[1..], founderName, index, judge)
  }

  /** The admitted records of one feed: only its first `EntriesPerFeed` entries are examined. */
  function AdmitFeed(feed: Feed, index: set<string>, judge: Oracle): (r: seq<Article>)
    ensures |r| <= EntriesPerFeed
  {
    AdmitEntries(Take(feed.entries, EntriesPerFeed), feed.name, index, judge)
  }

  /** The admitted records of a run, feed after feed (`new_articles`). */
  function AdmitAll(feeds: seq<Feed>, index: set<string>, judge: Oracle): (r: seq<Article>)
    ensures |r| <= EntriesPerFeed * |feeds|
    ensures forall i :: 0 <= i < |r| ==> r[i].url !in index
  {
    if feeds == [] then []
    else AdmitFeed(feeds[0], index, judge) + AdmitAll(feeds[1..], index, judge)
  }

  /** The admitted records go in front of the loaded ones and the list is cut
      to `MaxArticles`; the loaded articles keep their order and only the
      oldest are dropped. */
  function Merge(admitted: seq<Article>, existing: seq<Article>): (r: seq<Article>)
    ensures |r| == Min(|admitted| + |existing|, MaxArticles)
    ensures forall i :: 0 <= i < |r| && i < |admitted| ==> r[i] == admitted[i]
    ensures forall i :: |admitted| <= i < |r| ==> r[i] == existing[i - |admitted|]
  {
    Take(admitted + existing, MaxArticles)
  }

  /** The state of founder_articles.json when a run starts. */
  datatype StoredFile =
    | Absent                          // no file yet
    | Stored(articles: seq<Article>)  // a file that loads as a list of records
    | Corrupt                         // loading it or indexing its urls raises

  /** What a run does to the file. */
  datatype RunOutcome =
    | Saved(articles: seq<Article>)   // the file is (re)written with these records
    | Aborted                         // loading raised; nothing is written

  /** The loaded list, or `None` when loading raises. */
  function LoadExisting(f: StoredFile): (r: Option<seq<Article>>)
    ensures r.None? <==> f.Corrupt?
    ensures f.Absent? ==> r == Some([])
    ensures f.Stored? ==> r == Some(f.articles)
  {
    match f
    case Absent => Some([])
    case Stored(articles) => Some(articles)
    case Corrupt => None
  }

  /** The feeds as fetched: `fetch` maps a feed address to its parsed entries. */
  function FetchAll(sources: seq<FeedSource>, fetch: string -> seq<Entry>): (feeds: seq<Feed>)
    ensures |feeds| == |sources|
    ensures forall i :: 0 <= i < |sources| ==>
      feeds[i].name == sources[i].name && feeds[i].entries == fetch(sources[i].url)
  {
    seq(|sources|, i requires 0 <= i < |sources| => Feed(sources[i].name, fetch(sources[i].url)))
  }

  /** The list a run writes, given the loaded list and the fetched feeds. */
  function CurateFeeds(existing: seq<Article>, feeds: seq<Feed>, judge: Oracle): (r: seq<Article>)
    ensures |r| <= MaxArticles
  {
    Merge(AdmitAll(feeds, UrlIndex(existing), judge), existing)
  }

  /** One run of the script against the configured `sources`. */
  function Curate(stored: StoredFile, sources: seq<FeedSource>, fetch: string -> seq<Entry>, judge: Oracle): (out: RunOutcome)
    ensures out.Aborted? <==> stored.Corrupt?
    ensures out.Saved? ==> |out.articles| <= MaxArticles
  {
    match LoadExisting(stored)
    case None => Aborted
    case Some(existing) => Saved(CurateFeeds(existing, FetchAll(sources, fetch), judge))
  }

  /** The run the script performs: the configured founder feeds. */
  function Run(stored: StoredFile, fetch: string -> seq<Entry>, judge: Oracle): (out: RunOutcome)
    ensures out.Aborted? <==> stored.Corrupt?
  {
    Curate(stored, FounderFeeds, fetch, judge)
  }
}
