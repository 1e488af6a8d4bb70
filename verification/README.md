# Founder-article curation, modelled in Dafny

This project models the curation script `curate_founders.py` of the quote-api
repository. A run of `curate()` loads `founder_articles.json` and builds the set of
urls already stored. It then polls each configured founder feed in order and
examines only the latest three entries of each. An entry whose link is already
stored is skipped without asking the text-generation service. Any other entry
is sent to the service through `get_high_signal_summary`. That wrapper fails
closed: a failed call or an undecodable answer becomes
`{high_signal: False, summary: ""}`. Entries judged high signal become records
with a fixed shape. These new records go in front of the stored ones, the list
is cut to 50, and the file is rewritten.

The feed fetch, the service and the file are inputs of the model:

- `fetch: string -> seq<Entry>` gives the parsed entries of a feed address.
- `judge: Oracle` maps (title, link, founder name) to `Option<Judgment>`, where `None` is a failed call or an undecodable answer.
- `StoredFile` is `Absent`, `Stored(list)` or `Corrupt` (the file does not load, or building its url index raises).

Modules:

- `Wrappers`: `Option`.
- `Articles`: data model and constants (`FounderFeeds`, `EntriesPerFeed` = 3, `MaxArticles` = 50, `PlaceholderImage`).
- `Gate`: the fail-closed judgment wrapper.
- `Curation`: the run as pure functions.
- `Reference`: an independent flat description of a run (all examined candidates, the service calls, the judged records).
- `Properties`: lemmas about runs.
- `CurationLoop`: the nested loop of `curate()` as an imperative method, proved equal to the functional run.

What the script does, and therefore what the model states:

- It keeps one list of records, capped at 50.
- It rewrites the file on every run, even when nothing is admitted.
- A stored file whose `json.load` raises makes the run raise before anything is written.
- It builds the url index once, before polling, and never extends it. A link that two feeds offer, or that one feed lists twice among its latest three entries, is not filtered by the index the second time. It is admitted again whenever the service judges that copy high signal.

## Model

| member | source | states |
|---|---|---|
| Gate.GetHighSignalSummary | curate_founders.py:16-32 | a failed or undecodable call yields exactly `{high_signal: false, summary: ""}`; a high-signal judgment only ever comes from a successful answer, which is returned unchanged |
| Curation.UrlIndex | curate_founders.py:41 | the index holds exactly the urls of the loaded articles |
| Articles.Take | curate_founders.py:51 | the slice `s[:n]`: the first min(n, length) elements of `s`, as a prefix |
| Curation.Admits | curate_founders.py:52-55 | an entry is admitted exactly when its link is not loaded and the service answered with a judgment whose `high_signal` is true |
| Curation.MakeArticle | curate_founders.py:56-63 | the record has the entry's title and link, the feed's name, the judgment's summary, the placeholder image and the entry's `published`, or "" when it has none |
| Curation.AdmitEntries | curate_founders.py:51-63 | an entry run admits at most one record per entry, and every record has a url outside the index, the feed's name and the placeholder image |
| Curation.AdmitFeed | curate_founders.py:51 | at most `EntriesPerFeed` (3) records are admitted from one feed |
| Curation.AdmitAll | curate_founders.py:46-63 | a run admits at most 3 records per feed, none with a loaded url |
| Curation.Merge | curate_founders.py:66 | the written list has length min(admitted + loaded, 50); its first positions are the admitted records in order, followed by the loaded records in order |
| Curation.LoadExisting | curate_founders.py:37-44 | a missing file loads as the empty list, a stored list loads as itself, and only a corrupt file (one whose loading or url indexing raises) fails |
| Curation.FetchAll | curate_founders.py:46-48 | one fetched feed per configured feed, in order, carrying the feed's name and the entries fetched from its address |
| Curation.CurateFeeds | curate_founders.py:41-66 | the written list never exceeds 50 records |
| Curation.Curate | curate_founders.py:34-68 | a run aborts exactly when the stored file is corrupt; otherwise it writes at most 50 records |
| Curation.Run | curate_founders.py:71-72 | the script's run over the configured feeds aborts exactly when the stored file is corrupt |
| Reference.FeedCandidates | curate_founders.py:51 | the examined entries of a feed are its first min(3, length) entries in order, tagged with the feed's name |
| Reference.Candidates | curate_founders.py:46-51 | all examined entries number at most 3 per feed |
| Reference.Queried | curate_founders.py:52-53 | the service is asked only about entries whose link was not loaded |
| Reference.Judged | curate_founders.py:53-56 | at most one record per candidate judged |
| Reference.AdmitAllIsJudgedQueried | curate_founders.py:46-63 | the admitted records are exactly the records of the candidates sent to the service that it judged high signal, in feed order and then entry order |
| Properties.AdmittedRecordIsRecordOf | curate_founders.py:55-63 | an entry is admitted with record `a` exactly when its link is new and the service answered high signal with `a.snippet` as summary, and `a` carries the entry's title and link, the feed's name, the placeholder image and the entry's `published` (or "") |
| Properties.AdmitAllAppend | curate_founders.py:46-56 | admission splits over concatenated feed lists: records of earlier feeds come before records of later feeds |
| Properties.AdmitEntriesMembership | curate_founders.py:51-63 | a record is admitted from an entry run exactly when some entry of the run is admitted and the record is that entry's record |
| Properties.AdmittedIff | curate_founders.py:46-63 | a record is admitted exactly when it was built for one of the first 3 entries of some feed, whose link was not loaded and which the service judged high signal, with the record's fields taken from the entry, the feed and the judgment |
| Properties.FailingServiceAdmitsNothing | curate_founders.py:24-32 | when every service call fails, nothing is admitted and the run writes the loaded list cut to 50 |
| Properties.NewBeforeLoaded | curate_founders.py:66 | in the written list every record with a url that was not loaded precedes every record with a loaded url |
| Properties.DistinctUrlsKept | curate_founders.py:52-66 | if the loaded list and the admitted records each repeat no url, neither does the written list |
| Properties.SharedLinkNotFiltered | curate_founders.py:41-56 | when two differently named feeds offer the same unloaded link among their examined entries and the service judges both copies high signal, both records are admitted and the admitted list repeats a url |
| Properties.SameLinkInTwoFeedsAdmittedTwice | curate_founders.py:41-56 | a concrete run: one link offered by two feeds, with a service that judges everything high signal, is written twice |
| Properties.AbsentFileBootstrap | curate_founders.py:42-44 | without a stored file every examined entry counts as new and the run writes the admitted records cut to 50 |
| Properties.NothingAdmittedStillRewrites | curate_founders.py:66-68 | a run admitting nothing still writes the loaded list cut to 50, which equals the loaded list exactly when it held at most 50 records |
| Properties.RerunWithNothingNewIsStable | curate_founders.py:66-68 | a second run that admits nothing writes the same list as the first |
| Properties.ConfiguredRunAdmitsAtMostNine | curate_founders.py:8-12 | the three configured feeds yield at most nine new records per run |
| Properties.LoadedLinkSkippedNovelLinkFirst | curate_founders.py:41-66 | with "a" and "b" stored and a feed offering "a" and "c", the written list is the record for "c", then "a", then "b" |
| CurationLoop.ExamineFeed | curate_founders.py:51-63 | the inner loop appends exactly the feed's admitted records and asks the service about exactly its examined entries with a new link |
| CurationLoop.CurateRun | curate_founders.py:34-66 | the nested loop builds exactly the functional run's admitted records and service calls, in order; the records are the judged calls; the written list is their merge with the loaded list |

## Left out

- app.py, the HTTP quote endpoint: it is a request/response wrapper with no state.
- Fetching and parsing feeds over the network (curate_founders.py:48): modelled as the `fetch` parameter. A feed that fails to parse is whatever entry list `fetch` returns for it.
- An entry without `title` or `link` makes the script raise on attribute access. The model's `Entry` always has both.
- The service client (curate_founders.py:14), the prompt text and the JSON decoding of the answer (curate_founders.py:18-30): modelled as the `judge` parameter.
- The service as a function: `judge` gives the same answer to the same question. A nondeterministic service that answers a repeated question differently is not modelled.
- An answer that decodes to JSON other than an object makes `analysis.get` raise outside the `try` (curate_founders.py:55). The model keeps the judgment typed. `high_signal` is modelled as its truth value, and a missing `summary` as `None` (written as JSON null).
- Reading and writing the JSON file and its `indent=4` layout (curate_founders.py:38-40, 67-68): modelled as `StoredFile` and `RunOutcome`. A file whose `json.load` raises is `Corrupt` and aborts the run; it is not tolerated.
- StoredFile: stored records are assumed to have the six-key shape the script writes. The script itself asks much less of them. It reads only each record's `url` key (curate_founders.py:41) and copies every other key unchanged into the written list (curate_founders.py:66). So `[{"url": "u"}]`, a record with extra keys, or one with a numeric `timestamp` loads and is rewritten as it is. None of these files is modelled.
- StoredFile: a stored record without a `url` key, or a non-empty JSON object or string at the top level, makes the comprehension at curate_founders.py:41 raise before any feed is polled. This is covered by `Corrupt`.
- StoredFile: an empty JSON object or empty string at the top level passes curate_founders.py:40-41 with an empty index. Every examined entry then goes to the service, and the run raises only at the concatenation on curate_founders.py:66, so nothing is written. The model has no value for such a file. It does not model these late calls before the abort.
- The `print` progress and count messages (curate_founders.py:47, 69).
