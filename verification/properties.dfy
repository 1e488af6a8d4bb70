/** What a curation run guarantees, stated against the data rather than
    against the functions that compute it. */
module Properties {
  import opened Wrappers
  import opened Articles
  import opened Gate
  import opened Curation

  /** `a` is the record written for entry `e` of the feed named `name`: the
      service answered with a high-signal judgment whose summary is the
      snippet, and the other fields come from the entry and the feed. */
  ghost predicate RecordOf(a: Article, e: Entry, name: string, judge: Oracle) {
    && judge(e.title, e.link, name) == Some(Judgment(true, a.snippet))
    && a.title == e.title
    && a.url == e.link
    && a.founderName == name
    && a.image == PlaceholderImage
    && a.timestamp == (match e.published case Some(p) => p case None => "")
  }

  /** No url occurs twice. */
  ghost predicate DistinctUrls(s: seq<Article>) {
    forall i, j :: 0 <= i < j < |s| ==> s[i].url != s[j].url
  }

  lemma AdmittedRecordIsRecordOf(e: Entry, name: string, index: set<string>, judge: Oracle, a: Article)
    ensures (Admits(e, name, index, judge) && a == Record(e, name, judge))
        <==> (e.link !in index && RecordOf(a, e, name, judge))
  {
  }

  lemma {:induction false} AdmitEntriesAppend(a: seq<Entry>, b: seq<Entry>, name: string, index: set<string>, judge: Oracle)
    ensures AdmitEntries(a + b, name, index, judge)
         == AdmitEntries(a, name, index, judge) + AdmitEntries(b, name, index, judge)
  {
    if a == [] {
      assert a + b == b;
    } else {
      assert (a + b)[0] == a[0];
      assert (a + b)[1..] == a[1..] + b;
      AdmitEntriesAppend(a[1..], b, name, index, judge);
    }
  }

  /** Appending one entry appends its record exactly when it is admitted. */
  lemma AdmitEntriesSnoc(prefix: seq<Entry>, e: Entry, name: string, index: set<string>, judge: Oracle)
    ensures AdmitEntries(prefix + [e], name, index, judge)
         == AdmitEntries(prefix, name, index, judge) + (if Admits(e, name, index, judge) then [Record(e, name, judge)] else [])
  {
    AdmitEntriesAppend(prefix, [e], name, index, judge);
    assert [e][1..] == [];
  }

  /** Admission over a list of feeds splits at any point: the records of
      earlier feeds come first. */
  lemma {:induction false} AdmitAllAppend(f: seq<Feed>, g: seq<Feed>, index: set<string>, judge: Oracle)
    ensures AdmitAll(f + g, index, judge) == AdmitAll(f, index, judge) + AdmitAll(g, index, judge)
  {
    if f == [] {
      assert f + g == g;
    } else {
      assert (f + g)[0] == f[0];
      assert (f + g)[1..] == f[1..] + g;
      AdmitAllAppend(f[1..], g, index, judge);
    }
  }

  /** Appending one feed appends its admitted records. */
  lemma AdmitAllSnoc(prefix: seq<Feed>, feed: Feed, index: set<string>, judge: Oracle)
    ensures AdmitAll(prefix + [feed], index, judge) == AdmitAll(prefix, index, judge) + AdmitFeed(feed, index, judge)
  {
    AdmitAllAppend(prefix, [feed], index, judge);
    assert [feed][1..] == [];
    assert AdmitAll([feed], index, judge) == AdmitFeed(feed, index, judge) + [];
  }

  lemma {:induction false} AdmitEntriesMembership(entries: seq<Entry>, name: string, index: set<string>, judge: Oracle, a: Article)
    ensures a in AdmitEntries(entries, name, index, judge)
        <==> exists k :: 0 <= k < |entries| && Admits(entries[k], name, index, judge) && a == Record(entries[k], name, judge)
  {
    if entries != [] {
      var rest := entries[1..];
      AdmitEntriesMembership(rest, name, index, judge, a);
      if a in AdmitEntries(rest, name, index, judge) {
        var k :| 0 <= k < |rest| && Admits(rest[k], name, index, judge) && a == Record(rest[k], name, judge);
        assert entries[k + 1] == rest[k];
      }
      if exists k :: 0 <= k < |entries| && Admits(entries[k], name, index, judge) && a == Record(entries[k], name, judge) {
        var k :| 0 <= k < |entries| && Admits(entries[k], name, index, judge) && a == Record(entries[k], name, judge);
        if k > 0 {
          assert rest[k - 1] == entries[k];
        }
      }
    }
  }

  /** A record is in a run's admitted list exactly when it was written for one
      of the first `EntriesPerFeed` entries of some feed, whose link was not
      loaded and which the service judged high signal. */
  lemma {:induction false} AdmittedIff(feeds: seq<Feed>, index: set<string>, judge: Oracle, a: Article)
    ensures a in AdmitAll(feeds, index, judge)
        <==> exists f, k :: 0 <= f < |feeds| && 0 <= k < |feeds[f].entries| && k < EntriesPerFeed
               && feeds[f].entries[k].link !in index
               && RecordOf(a, feeds[f].entries[k], feeds[f].name, judge)
  {
    if feeds != [] {
      var feed := feeds[0];
      var latest := Take(feed.entries, EntriesPerFeed);
      var rest := feeds[1..];
      AdmittedIff(rest, index, judge, a);
      AdmitEntriesMembership(latest, feed.name, index, judge, a);
      if a in AdmitFeed(feed, index, judge) {
        var k :| 0 <= k < |latest| && Admits(latest[k], feed.name, index, judge) && a == Record(latest[k], feed.name, judge);
        AdmittedRecordIsRecordOf(latest[k], feed.name, index, judge, a);
        assert feeds[0].entries[k] == latest[k];
      }
      if a in AdmitAll(rest, index, judge) {
        var f, k :| 0 <= f < |rest| && 0 <= k < |rest[f].entries| && k < EntriesPerFeed
               && rest[f].entries[k].link !in index
               && RecordOf(a, rest[f].entries[k], rest[f].name, judge);
        assert feeds[f + 1] == rest[f];
      }
      if exists f, k :: 0 <= f < |feeds| && 0 <= k < |feeds[f].entries| && k < EntriesPerFeed
               && feeds[f].entries[k].link !in index
               && RecordOf(a, feeds[f].entries[k], feeds[f].name, judge) {
        var f, k :| 0 <= f < |feeds| && 0 <= k < |feeds[f].entries| && k < EntriesPerFeed
               && feeds[f].entries[k].link !in index
               && RecordOf(a, feeds[f].entries[k], feeds[f].name, judge);
        if f == 0 {
          assert latest[k] == feed.entries[k];
          AdmittedRecordIsRecordOf(latest[k], feed.name, index, judge, a);
        } else {
          assert rest[f - 1] == feeds[f];
        }
      }
    }
  }

  /** When every call to the service fails, nothing is admitted and the run
      writes the loaded list cut to `MaxArticles`. */
  lemma {:induction false} FailingServiceAdmitsNothing(existing: seq<Article>, feeds: seq<Feed>, judge: Oracle)
    requires forall t, l, n :: judge(t, l, n) == None
    ensures AdmitAll(feeds, UrlIndex(existing), judge) == []
    ensures CurateFeeds(existing, feeds, judge) == Take(existing, MaxArticles)
  {
    var index := UrlIndex(existing);
    if AdmitAll(feeds, index, judge) != [] {
      AdmittedIff(feeds, index, judge, AdmitAll(feeds, index, judge)[0]);
      assert false;
    }
    assert [] + existing == existing;
  }

  /** In the written list every record whose url was not loaded comes before
      every record whose url was loaded: newly admitted records always rank
      ahead of the old ones, whatever their publication date. */
  lemma NewBeforeLoaded(existing: seq<Article>, feeds: seq<Feed>, judge: Oracle)
    ensures var r := CurateFeeds(existing, feeds, judge);
      forall i, j :: 0 <= i < |r| && 0 <= j < |r| && r[i].url !in UrlIndex(existing) && r[j].url in UrlIndex(existing) ==> i < j
  {
  }

  /** The written list repeats no url when the loaded list repeats none and
      the run admits no link twice: admitted links are never loaded ones. */
  lemma DistinctUrlsKept(existing: seq<Article>, feeds: seq<Feed>, judge: Oracle)
    requires DistinctUrls(existing)
    requires DistinctUrls(AdmitAll(feeds, UrlIndex(existing), judge))
    ensures DistinctUrls(CurateFeeds(existing, feeds, judge))
  {
  }

  /** The url index is not extended during a run: a link that two feeds with
      different names offer among their examined entries is filtered by
      neither, so when the service judges both copies high signal both are
      admitted and the admitted records repeat a url. */
  lemma SharedLinkNotFiltered(feeds: seq<Feed>, index: set<string>, judge: Oracle, f: nat, k: nat, g: nat, m: nat)
    requires f < |feeds| && g < |feeds| && feeds[f].name != feeds[g].name
    requires k < |feeds[f].entries| && k < EntriesPerFeed
    requires m < |feeds[g].entries| && m < EntriesPerFeed
    requires feeds[f].entries[k].link == feeds[g].entries[m].link
    requires Admits(feeds[f].entries[k], feeds[f].name, index, judge)
    requires Admits(feeds[g].entries[m], feeds[g].name, index, judge)
    ensures Record(feeds[f].entries[k], feeds[f].name, judge) in AdmitAll(feeds, index, judge)
    ensures Record(feeds[g].entries[m], feeds[g].name, judge) in AdmitAll(feeds, index, judge)
    ensures !DistinctUrls(AdmitAll(feeds, index, judge))
  {
    var r := AdmitAll(feeds, index, judge);
    var a := Record(feeds[f].entries[k], feeds[f].name, judge);
    var b := Record(feeds[g].entries[m], feeds[g].name, judge);
    AdmittedIff(feeds, index, judge, a);
    AdmittedIff(feeds, index, judge, b);
    var i :| 0 <= i < |r| && r[i] == a;
    var j :| 0 <= j < |r| && r[j] == b;
    assert a.founderName != b.founderName && a.url == b.url;
    if i < j {
      assert r[i].url == r[j].url;
    } else {
      assert r[j].url == r[i].url;
    }
  }

  /** A concrete instance: one link offered by two feeds, with a service that
      judges everything high signal, is written twice. */
  lemma SameLinkInTwoFeedsAdmittedTwice()
    ensures var e := Entry("Essay", "https://example.org/essay", None);
      var judge: Oracle := (t, l, n) => Some(Judgment(true, Some("hook")));
      var r := CurateFeeds([], [Feed("A", [e]), Feed("B", [e])], judge);
      |r| == 2 && r[0].url == r[1].url && !DistinctUrls(r)
  {
  }

  /** Without a stored file nothing counts as already seen: the run writes
      the admitted records, cut to `MaxArticles`. */
  lemma AbsentFileBootstrap(sources: seq<FeedSource>, fetch: string -> seq<Entry>, judge: Oracle)
    ensures Curate(Absent, sources, fetch, judge)
         == Saved(Take(AdmitAll(FetchAll(sources, fetch), {}, judge), MaxArticles))
  {
    assert UrlIndex([]) == {};
    var admitted := AdmitAll(FetchAll(sources, fetch), {}, judge);
    assert admitted + [] == admitted;
  }

  /** A run that admits nothing still rewrites the file, with the loaded list
      cut to `MaxArticles`; the written list equals the loaded one exactly
      when at most `MaxArticles` records were loaded. */
  lemma NothingAdmittedStillRewrites(existing: seq<Article>, sources: seq<FeedSource>, fetch: string -> seq<Entry>, judge: Oracle)
    requires AdmitAll(FetchAll(sources, fetch), UrlIndex(existing), judge) == []
    ensures Curate(Stored(existing), sources, fetch, judge) == Saved(Take(existing, MaxArticles))
    ensures Curate(Stored(existing), sources, fetch, judge) == Saved(existing) <==> |existing| <= MaxArticles
  {
  }

  /** Running again on the written list when the second run admits nothing
      writes the same list. */
  lemma RerunWithNothingNewIsStable(existing: seq<Article>, feeds: seq<Feed>, judge: Oracle,
                                    later: seq<Feed>, laterJudge: Oracle)
    requires AdmitAll(later, UrlIndex(CurateFeeds(existing, feeds, judge)), laterJudge) == []
    ensures var r := CurateFeeds(existing, feeds, judge);
      CurateFeeds(r, later, laterJudge) == r
  {
  }

  /** The configured run polls three feeds and so admits at most nine records. */
  lemma ConfiguredRunAdmitsAtMostNine(existing: seq<Article>, fetch: string -> seq<Entry>, judge: Oracle)
    ensures |AdmitAll(FetchAll(FounderFeeds, fetch), UrlIndex(existing), judge)| <= 9
  {
  }

  /** A worked run: the loaded list holds "a" and "b"; one feed offers "a"
      (filtered by the url index) and "c" (admitted), so the written list is
      the record for "c" followed by "a" and "b". */
  lemma LoadedLinkSkippedNovelLinkFirst()
    ensures var storedA := Article("A", "a", Some("x"), "F", PlaceholderImage, "");
      var storedB := Article("B", "b", Some("y"), "F", PlaceholderImage, "");
      var ea := Entry("A", "a", None);
      var ec := Entry("C", "c", Some("Mon, 01 Jan 2024"));
      var judge: Oracle := (t, l, n) => Some(Judgment(true, Some("hook")));
      CurateFeeds([storedA, storedB], [Feed("F", [ea, ec])], judge)
        == [Article("C", "c", Some("hook"), "F", PlaceholderImage, "Mon, 01 Jan 2024"), storedA, storedB]
  {
    var storedA := Article("A", "a", Some("x"), "F", PlaceholderImage, "");
    var storedB := Article("B", "b", Some("y"), "F", PlaceholderImage, "");
    var ea := Entry("A", "a", None);
    var ec := Entry("C", "c", Some("Mon, 01 Jan 2024"));
    var judge: Oracle := (t, l, n) => Some(Judgment(true, Some("hook")));
    var feed := Feed("F", [ea, ec]);
    assert UrlIndex([storedA, storedB]) == {"a", "b"};
    assert Take(feed.entries, EntriesPerFeed) == [ea, ec];
    assert [ea, ec][1..] == [ec];
    assert AdmitEntries([ec], "F", {"a", "b"}, judge) == [Record(ec, "F", judge)];
    assert AdmitEntries([ea, ec], "F", {"a", "b"}, judge) == [Record(ec, "F", judge)];
    assert AdmitAll([feed], {"a", "b"}, judge) == [Record(ec, "F", judge)];
  }
}
