/** The nested loop of `curate()` as written: feeds in order, the first
    `EntriesPerFeed` entries of each, a membership test against the loaded
    urls before the service is asked, and an append for each admitted entry. */
module CurationLoop {
  import opened Articles
  import opened Gate
  import opened Curation
  import opened Reference
  import opened Properties

  /** The inner loop for one feed: the records it appends to `new_articles`
      and the service calls it makes. */
  method ExamineFeed(feed: Feed, existingUrls: set<string>, judge: Oracle)
    returns (admitted: seq<Article>, asked: seq<Candidate>)
    ensures admitted == AdmitFeed(feed, existingUrls, judge)
    ensures asked == Queried(FeedCandidates(feed), existingUrls)
  {
    var latest := Take(feed.entries, EntriesPerFeed);
    var examined := FeedCandidates(feed);
    admitted := [];
    asked := [];
    var k := 0;
    while k < |latest|
      invariant 0 <= k <= |latest|
      invariant admitted == AdmitEntries(latest[..k], feed.name, existingUrls, judge)
      invariant asked == Queried(examined[..k], existingUrls)
    {
      var entry := latest[k];
      if entry.link !in existingUrls {
        asked := asked + [Candidate(feed.name, entry)];
        var analysis := GetHighSignalSummary(judge, entry.title, entry.link, feed.name);
        if analysis.highSignal {
          admitted := admitted + [MakeArticle(entry, feed.name, analysis)];
        }
      }
      assert latest[..k + 1] == latest[..k] + [entry];
      AdmitEntriesSnoc(latest[..k], entry, feed.name, existingUrls, judge);
      assert examined[k] == Candidate(feed.name, entry);
      assert examined[..k + 1] == examined[..k] + [examined[k]];
      QueriedSnoc(examined[..k], examined[k], existingUrls);
      k := k + 1;
    }
    assert latest[..k] == latest;
    assert examined[..k] == examined;
  }

  /** Returns the list the run writes, the admitted records (`new_articles`)
      and the service calls made, in the order they are made. */
  method CurateRun(existing: seq<Article>, feeds: seq<Feed>, judge: Oracle)
    returns (finalList: seq<Article>, newArticles: seq<Article>, calls: seq<Candidate>)
    ensures newArticles == AdmitAll(feeds, UrlIndex(existing), judge)
    ensures calls == Queried(Candidates(feeds), UrlIndex(existing))
    ensures newArticles == Judged(calls, judge)
    ensures finalList == Merge(newArticles, existing)
  {
    var existingUrls := UrlIndex(existing);
    newArticles := [];
    calls := [];
    var i := 0;
    while i < |feeds|
      invariant 0 <= i <= |feeds|
      invariant newArticles == AdmitAll(feeds[..i], existingUrls, judge)
      invariant calls == Queried(Candidates(feeds[..i]), existingUrls)
    {
      var feed := feeds[i];
      var admitted, asked := ExamineFeed(feed, existingUrls, judge);
      newArticles := newArticles + admitted;
      calls := calls + asked;
      assert feeds[..i + 1] == feeds[..i] + [feed];
      AdmitAllSnoc(feeds[..i], feed, existingUrls, judge);
      QueriedCandidatesSnoc(feeds[..i], feed, existingUrls);
      i := i + 1;
    }
    assert feeds[..i] == feeds;
    AdmitAllIsJudgedQueried(feeds, existingUrls, judge);
    finalList := Merge(newArticles, existing);
  }
}
