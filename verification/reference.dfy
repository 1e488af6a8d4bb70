/** An independent, flat description of a run: the examined entries of all
    feeds as one ordered list of candidates, the candidates sent to the
    text-generation service, and the records of those it judges high signal. */
module Reference {
  import opened Articles
  import opened Gate
  import opened Curation

  /** An examined entry together with the name of the feed it came from. */
  datatype Candidate = Candidate(founderName: string, entry: Entry)

  /** Each of `entries`, in order, tagged with the feed name `name`. */
  function Tagged(name: string, entries: seq<Entry>): (r: seq<Candidate>)
    ensures |r| == |entries|
    ensures forall k :: 0 <= k < |r| ==> r[k] == Candidate(name, entries[k])
  {
    seq(|entries|, k requires 0 <= k < |entries| => Candidate(name, entries[k]))
  }

  /** The examined entries of one feed: its first `EntriesPerFeed` entries, in order. */
  function FeedCandidates(feed: Feed): (r: seq<Candidate>)
    ensures |r| == Min(|feed.entries|, EntriesPerFeed)
    ensures forall k :: 0 <= k < |r| ==> r[k] == Candidate(feed.name, feed.entries[k])
  {
    Tagged(feed.name, Take(feed.entries, EntriesPerFeed))
  }

  /** The examined entries of all feeds, feed after feed. */
  function Candidates(feeds: seq<Feed>): (r: seq<Candidate>)
    ensures |r| <= EntriesPerFeed * |feeds|
  {
    if feeds == [] then []
    else FeedCandidates(feeds[0]) + Candidates(feeds[1..])
  }

  /** The candidates whose link is not among the loaded urls, in order: the
      calls the run makes to the service. */
  function Queried(cs: seq<Candidate>, index: set<string>): (r: seq<Candidate>)
    ensures |r| <= |cs|
    ensures forall i :: 0 <= i < |r| ==> r[i].entry.link !in index
  {
    if cs == [] then []
    else (if cs[0].entry.link !in index then [cs[0]] else []) + Queried(cs[1..], index)
  }

  /** The records of the candidates the service judges high signal, in order. */
  function Judged(cs: seq<Candidate>, judge: Oracle): (r: seq<Article>)
    ensures |r| <= |cs|
  {
    if cs == [] then []
    else JudgeOne(cs[0], judge) + Judged(cs[1..], judge)
  }

  /** The record of one candidate if the service judges it high signal. */
  function JudgeOne(c: Candidate, judge: Oracle): seq<Article> {
    if GetHighSignalSummary(judge, c.entry.title, c.entry.link, c.founderName).highSignal
    then [Record(c.entry, c.founderName, judge)] else []
  }

  lemma {:induction false} QueriedAppend(a: seq<Candidate>, b: seq<Candidate>, index: set<string>)
    ensures Queried(a + b, index) == Queried(a, index) + Queried(b, index)
  {
    if a == [] {
      assert a + b == b;
    } else {
      assert (a + b)[1..] == a[1..] + b;
      QueriedAppend(a[1..], b, index);
    }
  }

  /** Appending one candidate appends it to the calls exactly when its link was not loaded. */
  lemma QueriedSnoc(prefix: seq<Candidate>, c: Candidate, index: set<string>)
    ensures Queried(prefix + [c], index) == Queried(prefix, index) + (if c.entry.link !in index then [c] else [])
  {
    QueriedAppend(prefix, [c], index);
    assert [c][1..] == [];
  }

  lemma {:induction false} JudgedAppend(a: seq<Candidate>, b: seq<Candidate>, judge: Oracle)
    ensures Judged(a + b, judge) == Judged(a, judge) + Judged(b, judge)
  {
    if a == [] {
      assert a + b == b;
    } else {
      assert (a + b)[1..] == a[1..] + b;
      JudgedAppend(a[1..], b, judge);
    }
  }

  lemma {:induction false} CandidatesAppend(f: seq<Feed>, g: seq<Feed>)
    ensures Candidates(f + g) == Candidates(f) + Candidates(g)
  {
    if f == [] {
      assert f + g == g;
    } else {
      assert (f + g)[1..] == f[1..] + g;
      CandidatesAppend(f[1..], g);
    }
  }

  /** Appending one feed appends the calls for its examined entries. */
  lemma QueriedCandidatesSnoc(prefix: seq<Feed>, feed: Feed, index: set<string>)
    ensures Queried(Candidates(prefix + [feed]), index)
         == Queried(Candidates(prefix), index) + Queried(FeedCandidates(feed), index)
  {
    CandidatesAppend(prefix, [feed]);
    assert [feed][1..] == [];
    assert Candidates([feed]) == FeedCandidates(feed) + Candidates([]);
    assert FeedCandidates(feed) + [] == FeedCandidates(feed);
    assert Candidates(prefix + [feed]) == Candidates(prefix) + FeedCandidates(feed);
    QueriedAppend(Candidates(prefix), FeedCandidates(feed), index);
  }

  /** Within one feed, admission is judging the queried entries. */
  lemma {:induction false} AdmitEntriesIsJudgedQueried(entries: seq<Entry>, name: string, index: set<string>, judge: Oracle)
    ensures AdmitEntries(entries, name, index, judge)
         == Judged(Queried(Tagged(name, entries), index), judge)
  {
    var cs := Tagged(name, entries);
    if entries == [] {
      assert cs == [];
    } else {
      var rest := Tagged(name, entries[1..]);
      assert cs == [cs[0]] + rest;
      AdmitEntriesIsJudgedQueried(entries[1..], name, index, judge);
      QueriedAppend([cs[0]], rest, index);
      JudgedAppend(Queried([cs[0]], index), Queried(rest, index), judge);
      assert [cs[0]][1..] == [];
    }
  }

  /** The records a run admits are exactly the records of the queried
      candidates the service judges high signal, in feed order and then entry
      order. */
  lemma {:induction false} AdmitAllIsJudgedQueried(feeds: seq<Feed>, index: set<string>, judge: Oracle)
    ensures AdmitAll(feeds, index, judge) == Judged(Queried(Candidates(feeds), index), judge)
  {
    if feeds != [] {
      var latest := Take(feeds[0].entries, EntriesPerFeed);
      AdmitEntriesIsJudgedQueried(latest, feeds[0].name, index, judge);
      AdmitAllIsJudgedQueried(feeds[1..], index, judge);
      QueriedAppend(FeedCandidates(feeds[0]), Candidates(feeds[1..]), index);
      JudgedAppend(Queried(FeedCandidates(feeds[0]), index), Queried(Candidates(feeds[1..]), index), judge);
    }
  }
}
