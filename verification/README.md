# podcore: a verified model of its mediators

podcore ingests podcast feeds, hydrates directory entries, works a job queue and
serves searches from a cache. Its logic lives in "mediators": transactional state
machines over a handful of Postgres tables, plus an XML event parser, an HTML
sanitiser, a redirect follower and a slug generator. This project models that logic
in Dafny and proves what it keeps over every input, run or history.

How the model is laid out:

- Code that changes state step by step is a method over a class with the source's
  fields (`Xml.Reader`, `HtmlSanitizer.Buffer`, `PodcastUpdater.Mediator`,
  `JobTables.JobDatabase`, ...), each method proved equal to a function of the old
  state. The theorems are lemmas about those functions.
- A table is a map from row id to row, carrying the unique indexes, foreign keys and
  CHECK constraints its migrations declare; a statement that would violate one fails.
- A transaction is a snapshot with rollback, and a nested one a savepoint. Every
  statement of the updater, the hydration and the search may fail on its own (`faults`).
- The clock, the network and the ids that sequences hand out are parameters. Ids are
  only assumed unused. SHA-256 is a constructor, so two bodies share a hash only when
  they are equal; UTF-8 decoding, XML tokenising, date parsing, trimming, Unicode
  tables and gzip are arbitrary functions.
- The job worker is a state machine whose steps interleave freely, so its lemmas hold
  for every scheduling of the workers.

| file | what it models |
|---|---|
| FeedParser.dfy, FeedErrors.dfy | the recursive-descent feed parser over an event stream, against the document tree, and exactly when it fails |
| EpisodeConversion.dfy | validation of raw episodes and one row for each GUID |
| Schema.dfy, EpisodeUpsert.dfy, PodcastUpdater.dfy | the feed tables, the episode statement, one updater run with its recovery |
| PodcastRuns.dfy, PodcastSuccess.dfy, PodcastReruns.dfy, Ingestion.dfy | invariants of every history, when a run succeeds, idempotence, and the path from document tree to stored rows |
| DirectoryPodcastUpdater.dfy | hydrating a directory podcast with nested transactions |
| DirectoryUpsert.dfy, DirectorySearch.dfy, DirectoryCache.dfy, DirectorySuccess.dfy, Cleaner.dfy | the search cache, when it answers and when a search succeeds, and the cleaner beside it |
| JobTables.dfy, JobWorker.dfy | recording a batch, retries, and the concurrent worker |
| HtmlSanitizer.dfy, HttpRequester.dfy, Links.dfy, PodcastReingester.dfy | sanitiser, redirects, slugs, keyset paging |
| Wrappers.dfy | types and collection facts the others share |

## Where the code departs from its own comments

The model follows the code. The intended behaviour is stated beside it, with the exact
condition under which the two agree and a concrete input on which they do not.

- Redirects (src/http_requester.rs:125-134): the comment promises the final URI after a
  permanent redirect, but `status` is shadowed by the status of the followed response,
  which is never a redirect. The code always reports the URI it was given. The two differ
  exactly when a response is reached and the leading run of 308 redirects ends elsewhere
  (`HttpRequester.ShadowedStatusExactly`, `HttpRequester.ShadowedStatusExample`).
- Hydration (src/mediators/directory_podcast_updater.rs:48-51): the exception saved on
  failure is rolled back by the outer transaction, and so is the inner recovery, both of
  which were in place (`DirectoryPodcastUpdater.FailureErasesEverything`). The intent is
  met exactly when the hydration succeeds, whose conditions are spelled out
  (`DirectoryPodcastUpdater.IntentMetExactly`,
  `DirectoryPodcastUpdater.UnrecordedFailureExample`).
- Slugs (src/links.rs:80-89): a separator that starts the title should be passed over,
  but a bare `:` leaves `last_loop` set, so the slug stops after one word. They agree
  unless a bare colon leads and a second word would have fitted
  (`Links.LeadingColonExactly`, `Links.LeadingColonExample`).

Three smaller findings. A short-circuited run leaves a recorded exception and all episode
fields as they were (`PodcastSuccess.ShortCircuitsExactly`), so ingesting content A, B and
then A again leaves B's fields (`PodcastReruns.ReturningContentKeepsOtherFields`); what the
shortcut keeps is which GUIDs are stored. The sanitiser prints text and href values without
escaping them, so its string shows only what was let through exactly when no text holds `<`
and no href a double quote (`HtmlSanitizer.ReadsAsMeantExactly`). And `unslug_id` gives an
id back exactly when it is not negative (`Links.UnslugUndoesSlug`).

## Model

| member | source | states |
|---|---|---|
| FeedParser.ReadToEnd | src/mediators/podcast_updater.rs:654-656 | skipping on the reader leaves it where the stream function says: past the end tag that matches, or at an error |
| FeedParser.ElementText | src/mediators/podcast_updater.rs:647-675 | the text loop returns and consumes, on any stream, what the stream function says |
| FeedParser.ParseItem | src/mediators/podcast_updater.rs:784-827 | the item loop returns and consumes, on any stream, what the stream function says |
| FeedParser.ParseChannel | src/mediators/podcast_updater.rs:677-717 | the channel loop returns and consumes, on any stream, what the stream function says |
| FeedParser.ParseRss | src/mediators/podcast_updater.rs:748-782 | the rss loop keeps the first channel and does not skip later ones, yet equals the stream function |
| FeedParser.ParseFeed | src/mediators/podcast_updater.rs:277-302 | the whole parser on any event stream, truncated and badly nested ones included |
| FeedParser.SkipStopsAtMatchingEnd | src/mediators/podcast_updater.rs:707-707 | skipping an element of a well-nested document stops just past its own end tag, whatever same-named elements it holds |
| FeedParser.TextFromTree | src/mediators/podcast_updater.rs:647-675 | on a well-nested element the text parser stops just past its end tag and returns its last direct text, or the error for none |
| FeedParser.ItemFromTree | src/mediators/podcast_updater.rs:784-827 | on a well-nested item the parser stops just past its end tag with the value or error the item's direct children give |
| FeedParser.ChannelFromTree | src/mediators/podcast_updater.rs:677-717 | the same for a channel |
| FeedParser.LaterChannelsIgnored | src/mediators/podcast_updater.rs:759-768 | once a channel is held, a further one, whose children are read as if they were the rss element's, ends in the same result |
| FeedParser.ParserReadsTree | src/mediators/podcast_updater.rs:277-302 | for every well-nested document the event parser returns exactly the value or error of a fold over the tree that reads only the first channel's and its items' direct children |
| FeedParser.LastAttributeDecides | src/mediators/podcast_updater.rs:797-809 | the last well-formed attribute with the key decides, malformed ones are passed over |
| FeedParser.ItemMediaAreDirectAttributes | src/mediators/podcast_updater.rs:796-811 | an item's media type and URL are the last `type` and `url` its own enclosure or media:content elements give |
| FeedParser.ItemFieldsAreDirectTexts | src/mediators/podcast_updater.rs:792-817 | each text field of an item is the text of its last direct child of that tag |
| FeedParser.ChannelImageIsDirectAttribute | src/mediators/podcast_updater.rs:693-702 | a channel's image is the last `url` its own thumbnails give |
| FeedParser.ChannelFieldsAreDirectTexts | src/mediators/podcast_updater.rs:689-706 | each text field of a channel is the text of its last direct child of that tag |
| FeedParser.ChannelEpisodesAreDirectItems | src/mediators/podcast_updater.rs:690-690 | a channel's episodes are its direct items in order |
| FeedParser.ParserReadsChannel | src/mediators/podcast_updater.rs:277-302 | only the children of the first channel in the first rss count, whatever declaration, attributes or elements stand around either; without one the parse fails |
| FeedParser.UnknownSubtreesIgnored | src/mediators/podcast_updater.rs:707-707 | two documents whose channels differ by an unknown subtree, its own title included, parse alike, whatever else differs outside the channels |
| FeedParser.UnknownItemSubtreesIgnored | src/mediators/podcast_updater.rs:817-817 | the same for an unknown subtree inside an item |
| FeedErrors.ItemFailsExactly | src/mediators/podcast_updater.rs:784-827 | an item fails if and only if a direct child with one of its text tags has no direct text, or a well-formed `type` or `url` of an enclosure or media:content child has no value; the error is that of the first such child. Other attributes never matter |
| FeedErrors.ChannelFailsExactly | src/mediators/podcast_updater.rs:677-717 | a channel fails if and only if a direct text child has no direct text, a thumbnail's well-formed `url` has no value, or a direct item fails; the error is that of the first such child |
| FeedErrors.FeedFailsExactly | src/mediators/podcast_updater.rs:277-302 | a well-nested document parses if and only if it has a channel in its first rss that meets those conditions; otherwise the error is the missing rss or channel, or that of the first failing child |
| EpisodeConversion.ConvertEpisodes | src/mediators/podcast_updater.rs:186-222 | the loop with its set of seen GUIDs equals the conversion function, errors included |
| EpisodeConversion.KeepsFirstOccurrences | src/mediators/podcast_updater.rs:196-216 | a conversion that succeeds keeps, in feed order, exactly the first valid occurrence of each GUID, each as it validates |
| EpisodeConversion.KeptGuidsDiffer | src/mediators/podcast_updater.rs:201-206 | the GUIDs kept are pairwise distinct |
| EpisodeConversion.KeptGuids | src/mediators/podcast_updater.rs:196-216 | a GUID is kept if and only if some raw episode is valid with it |
| EpisodeConversion.CandidatesAddUp | src/mediators/podcast_updater.rs:217-218 | kept, duplicate and invalid episodes add up to the candidates |
| EpisodeConversion.FailsOnlyOnDates | src/mediators/podcast_updater.rs:870-887 | conversion fails if and only if some complete episode has a date that does not parse |
| EpisodeUpsert.UpsertHoldsRows | src/mediators/podcast_updater.rs:335-358 | the statement keeps (podcast, guid) unique, drops or rekeys no row, and stores each row given at the id returned for it |
| EpisodeUpsert.UpsertAddsGuids | src/mediators/podcast_updater.rs:335-358 | the GUIDs present afterwards are those before and those upserted, for this podcast and no other |
| EpisodeUpsert.DistinctRowsNeverCollide | migrations/2017-12-26-173135_create_initial_schema/up.sql:205-206 | with distinct GUIDs the statement never touches one (podcast, guid) row twice |
| EpisodeUpsert.UpsertAgain | src/mediators/podcast_updater.rs:335-358 | upserting rows already stored changes nothing and returns the same ids |
| PodcastUpdater.Mediator.UpsertPodcast | src/mediators/podcast_updater.rs:384-409 | updates the podcast owning the final URL or inserts one; on an error nothing is written |
| PodcastUpdater.Mediator.UpsertPodcastFeedLocation | src/mediators/podcast_updater.rs:469-499 | upserts on (podcast, url), failing on the URL index when another podcast owns the URL |
| PodcastUpdater.Mediator.UpsertPodcastFeedContent | src/mediators/podcast_updater.rs:430-467 | upserts on (podcast, hash), moving only the retrieval time of a content already stored |
| PodcastRuns.EpisodesKeep | src/mediators/podcast_updater.rs:335-358 | for rows with distinct GUIDs the statement is never stopped by an index or a missing podcast, keeps uniqueness and references, and adds exactly their GUIDs to the podcast and none to others |
| PodcastUpdater.Mediator.RunInner | src/mediators/podcast_updater.rs:64-139 | the steps in order, each leaving the tables as specified, with the early return of the shortcut |
| PodcastUpdater.Mediator.RunRecovery | src/mediators/podcast_updater.rs:141-157 | its own transaction; an error of its own leaves the tables as they were and is swallowed |
| PodcastUpdater.Mediator.Run | src/mediators/podcast_updater.rs:45-62 | rollback on any error, then the recovery, then the original error |
| PodcastRuns.LocationKeeps | migrations/2018-02-18-195058_index_podcast_feed_location_on_url/up.sql:1-2 | the location upsert never hits the unique URL index with another podcast, and keeps it unique |
| PodcastRuns.PodcastOwnsUrl | src/mediators/podcast_updater.rs:101-105 | the podcast chosen by the final URL owns every location with that URL |
| PodcastSuccess.LatestUrlIsFetched | src/mediators/podcast_updater.rs:304-333 | when some podcast owns the given URL, the URL fetched is that of one of its own locations, retrieved at least as late as each of its others, whatever other podcasts' locations there are |
| PodcastSuccess.UnownedUrlIsFetched | src/mediators/podcast_updater.rs:304-333 | a URL no podcast owns is fetched as given |
| PodcastRuns.SuccessStoresTheGuids | src/mediators/podcast_updater.rs:111-129 | a successful run, short-circuited or not, leaves exactly the GUIDs stored before plus those of the body fetched, for its podcast, and the same as before for all others |
| PodcastSuccess.RunSucceedsExactly | src/mediators/podcast_updater.rs:64-139 | a run succeeds if and only if, known before it: no statement on its path fails, the latest URL answers 200 with a body that decodes, parses and has a title, the podcast row and the final URL fit, and either the shortcut is on and the body is stored for that URL's podcast, or the content fits, the date of every complete episode parses and every row kept fits |
| PodcastSuccess.ShortCircuitsExactly | src/mediators/podcast_updater.rs:163-184 | a run whose conditions hold stops short if and only if the shortcut is on and the body it will fetch is stored for the podcast owning the final URL; then contents, episodes and exceptions are untouched |
| PodcastSuccess.ShortcutHidesNothing | src/mediators/podcast_updater.rs:107-121 | whenever a run succeeds with the shortcut disabled and the content can be counted, it succeeds with it enabled, and the same GUIDs end up stored for every podcast |
| PodcastRuns.RunKeepsSound | src/mediators/podcast_updater.rs:45-62 | every run, whichever step fails, keeps URLs, contents and episodes unique, references intact and every content's GUIDs present, and is never stopped by a unique index, a row hit twice or a missing row |
| PodcastRuns.HistoryKeepsSound | src/mediators/podcast_updater.rs:92-121 | the same over every history of successful, failed and short-circuited runs and content clean-ups |
| PodcastRuns.FailureIsContained | src/mediators/podcast_updater.rs:50-58 | a failed run changes at most the retrieval time and the exception row of the podcast owning the given URL, writes exactly those when the recovery meets no fault, and changes nothing otherwise |
| PodcastReruns.SuccessPlaces | src/mediators/podcast_updater.rs:97-105 | every successful run, even one that stops short, gives one podcast the feed's fields and the clock's retrieval time, and its final URL likewise, keeping when a known URL was first retrieved; no other podcast or location changes |
| PodcastReruns.FullRunStoresTheFeed | src/mediators/podcast_updater.rs:123-138 | after any successful run that does not stop short, shortcut enabled or not, the content is stored as of the clock, each converted row at its returned id, and the exception is gone |
| EpisodeUpsert.UpsertTouchesWritten | src/mediators/podcast_updater.rs:335-358 | rows whose ids the statement does not return keep all their fields, and no other rows appear |
| PodcastReruns.SuccessLeavesTheRest | src/mediators/podcast_updater.rs:64-139 | beside its podcast and location a successful run that stops short changes nothing, and any other only one content of its podcast, the episodes it returns and its podcast's exception: other contents with their times, other episodes with their fields, other exceptions and the directory tables stay |
| PodcastReruns.SecondRunPicksSameUrl | src/mediators/podcast_updater.rs:304-333 | after a successful run from a pass-through requester the same given URL leads to the same latest URL |
| PodcastReruns.SecondRunChangesNothing | src/mediators/podcast_updater.rs:88-105 | running again with the shortcut disabled after a run that ingested succeeds with the same ids and leaves the same rows under the same ids, up to retrieval times |
| PodcastReruns.ReturningContentKeepsOtherFields | src/mediators/podcast_updater.rs:107-121 | after content A and then B, a run with the shortcut on that fetches A again stops short and leaves the podcast's episodes as B converts to |
| Ingestion.ItemBecomesRow | src/mediators/podcast_updater.rs:870-887 | an item has a valid row exactly when it has GUID, title, media URL and a date that parses, and the row says what the item's own children say |
| Ingestion.FullRunStoresTheTree | src/mediators/podcast_updater.rs:64-139 | end to end: when the body is any well-nested document, a successful run that does not stop short stores the texts of its first channel in the podcast's row and exactly the first complete item of each GUID as episode rows, in order, with the item's own texts and attributes |
| Ingestion.RunSucceedsOnDocument | src/mediators/podcast_updater.rs:64-139 | when the latest URL answers with any well-nested document, a run succeeds if and only if no statement fails and, on the tree: the first channel is there, it and its items have all their texts and attribute values, it has a title, its texts fit, and unless the shortcut applies every complete item's date parses and every row kept fits |
| Ingestion.UnansweredFails | src/mediators/podcast_updater.rs:74-84 | without a response of status 200 from the latest URL a run fails |
| DirectoryPodcastUpdater.Mediator.SaveDirPodcast | src/mediators/directory_podcast_updater.rs:69-77 | links the caller's copy first, then saves all its columns or nothing |
| DirectoryPodcastUpdater.Mediator.RunInner | src/mediators/directory_podcast_updater.rs:30-53 | the nested run, then link and clear, or record |
| DirectoryPodcastUpdater.Mediator.Run | src/mediators/directory_podcast_updater.rs:23-28 | the outer transaction: any error restores every table, not the caller's copy |
| DirectoryPodcastUpdater.SuccessLinks | src/mediators/directory_podcast_updater.rs:39-47 | success links the row to the podcast updated, clears its exception, and leaves the rest as the updater alone does |
| DirectoryPodcastUpdater.FailureErasesEverything | src/mediators/directory_podcast_updater.rs:48-51 | when the update fails, its error is saved and the recovery has written the owner's rows just before the end, and yet every failure leaves every table as it was |
| DirectoryPodcastUpdater.SucceedsExactly | src/mediators/directory_podcast_updater.rs:30-53 | success if and only if, known before it: the conditions of a successful update from the row's URL hold, the row exists, fits and has its vendor id to itself, and none of the outer statements fails |
| DirectoryPodcastUpdater.IntentMetExactly | src/mediators/directory_podcast_updater.rs:48-51 | linking on success and recording on failure is met if and only if those same conditions hold, so never on a failure |
| DirectoryPodcastUpdater.UnrecordedFailureExample | src/mediators/directory_podcast_updater.rs:141-156 | a body that is not a feed, with a faultless database, fails and leaves no exception |
| DirectoryPodcastUpdater.HydrationKeepsSound | src/mediators/directory_podcast_updater.rs:23-53 | every hydration keeps the updater's invariant |
| DirectoryPodcastUpdater.HistoryKeepsSound | src/mediators/directory_podcast_updater.rs:23-53 | that invariant holds over every history that interleaves updater runs, content clean-ups and hydrations, failed ones included |
| DirectoryUpsert.UpsertHoldsRows | src/mediators/directory_podcast_searcher.rs:283-298 | the statement keeps (directory, vendor) unique, returns for each result an id showing it, and neither clears nor sets the link of an existing row |
| DirectoryUpsert.UpsertInsertsWhole | src/mediators/directory_podcast_searcher.rs:283-285 | a row that was not there before is inserted whole, its link included |
| DirectoryUpsert.UpsertsExactlyDistinct | migrations/2017-12-26-173135_create_initial_schema/up.sql:133-134 | rows that fit are upserted if and only if no vendor id repeats among them |
| DirectoryUpsert.UpsertsExactly | migrations/2017-12-26-173135_create_initial_schema/up.sql:133-134 | any rows are upserted if and only if each fits and no vendor id repeats among them, and each gives an id |
| DirectorySearch.Mediator.SelectCachedResults | src/mediators/directory_podcast_searcher.rs:175-212 | both result lists in the order of the join positions |
| DirectorySearch.Mediator.UpsertDirectoryPodcasts | src/mediators/directory_podcast_searcher.rs:243-302 | results without a feed URL are dropped, the others linked in place to the owner of their URL and upserted in order |
| DirectorySearch.Mediator.RefreshJoins | src/mediators/directory_podcast_searcher.rs:140-173 | the search's joins are replaced by one a podcast, numbered from 0; more than 1000 fail |
| DirectorySearch.Mediator.RunInner | src/mediators/directory_podcast_searcher.rs:35-77 | a fresh entry is answered from the cache, a stale or missing one fetched anew |
| DirectorySearch.Mediator.Run | src/mediators/directory_podcast_searcher.rs:29-33 | any error restores every table, the entry's time included |
| DirectoryCache.CachedReadsBack | src/mediators/directory_podcast_searcher.rs:175-212 | selecting the joins of a search by position gives back the podcasts they were laid for, in order, positions 0 to n-1 |
| DirectoryCache.UncachedRun | src/mediators/directory_podcast_searcher.rs:58-71 | a fetched answer's ids are laid as the entry's joins, the entry carries the clock, and no other entry or link changes |
| DirectoryCache.FetchedAnswerShowsResults | src/mediators/directory_podcast_searcher.rs:249-278 | a fetched answer lists, in order, rows showing the results that have a feed URL; new rows are linked to the owner of their URL, old ones keep their link |
| DirectoryCache.UsableKeepsOrder | src/mediators/directory_podcast_searcher.rs:249-251 | each result with a feed URL is kept, in its order |
| DirectoryCache.OtherRunsChangeNothing | src/mediators/directory_podcast_searcher.rs:29-33 | a failed run, a failed fetch included, leaves no entry marked fresh that was not, and a cached answer writes nothing |
| DirectoryCache.EntriesRecordLastRuns | src/mediators/directory_podcast_searcher.rs:35-77 | over every history of searches, both cleaners, hydrations saving any copy of a row, and changes of feed locations, each entry holds the podcasts and the time of its query's last uncached run that succeeded; failed runs leave no trace |
| DirectoryCache.CachedAnswerIsLastUncached | src/mediators/directory_podcast_searcher.rs:38-53 | a cached answer is that of the query's last uncached run, same ids in the same order, and that run was within the hour |
| DirectoryCache.OnlyOldSearchesGo | src/static/sql/cleaner_directory_search.sql:1-6 | the search cleaner takes only entries more than a week old |
| DirectorySuccess.FreshIsCached | src/mediators/directory_podcast_searcher.rs:38-53 | a query with an entry retrieved less than an hour ago is answered from that entry, if and only if none of the four statements on that path fails |
| DirectorySuccess.StaleIsFetched | src/mediators/directory_podcast_searcher.rs:58-76 | without such an entry a run succeeds if and only if no statement on its path fails, there is a response, a new query has at most 100 characters, and the results with a feed URL fit, differ in their ids and are at most 1000; its answer is never a cached one |
| DirectorySuccess.CachedOnlyFresh | src/mediators/directory_podcast_searcher.rs:38-53 | a cached answer comes from an entry of the query retrieved less than an hour ago |
| DirectoryCache.LinksAreNeverCleared | src/mediators/directory_podcast_searcher.rs:290-297 | a directory podcast once linked stays, and stays linked, through every history |
| Cleaner.Worker.Work | src/mediators/cleaner.rs:232-253 | the loop ends for any limit of at least 1, deletes exactly the dangling rows, counts them, and breaks no reference: the rows left are those linked to a podcast, in some search's results or with an exception, unchanged; a failed batch leaves only dangling rows deleted |
| Cleaner.Worker.DeleteDirectoryPodcastBatch | src/mediators/cleaner.rs:173-189 | one batch deletes only dangling rows, as many as there are up to the limit, counts them, leaves the others dangling and breaks no reference |
| Cleaner.DeletingDangling | src/static/sql/cleaner_directory_podcast.sql:1-22 | deleting dangling rows leaves exactly the others dangling and breaks no foreign key |
| JobTables.TotalDelayClosedForm | src/mediators/job_worker.rs:264-267 | the delays of the first n retries sum to the closed form for fourth powers |
| JobTables.DelaysBeforeLastAttempt | src/mediators/job_worker.rs:196-196 | the delays before the last attempt sum to 15360 seconds |
| JobTables.RetryNeverOverflows | src/mediators/job_worker.rs:264-267 | a delay is only computed for live jobs and lies between 4 and 6564 seconds |
| JobTables.JobDatabase.RecordResultsInner | src/mediators/job_worker.rs:295-370 | the four statements in order leave the specified tables, with every exception's job present at each of them |
| JobTables.WaitResults | src/mediators/job_worker.rs:375-389 | sorts exactly the expected number of results into succeeded ids and errors, in order |
| JobTables.RecordingSettles | src/mediators/job_worker.rs:276-278 | recording a batch removes succeeded jobs and their exceptions, advances errored ones once with their errors and the time recorded, and leaves all other rows alone |
| JobTables.BatchEqualsSequence | src/mediators/job_worker.rs:295-370 | recording a batch at once equals working it one job at a time, up to timestamps, in any order of results |
| JobWorker.InvAlways | src/mediators/job_worker.rs:99-150 | in every reachable state queued, worked, unread and collected jobs are exactly the selected ones, none twice, and all tables, workers and channels are consistent |
| JobWorker.StartedInv | src/mediators/job_worker.rs:45-75 | the invariant holds at the start |
| JobWorker.RecordIsCalledSoundly | src/mediators/job_worker.rs:136-140 | for every interleaving, a batch that can be recorded meets what the recording statements ask: every exception refers to a job, and no errored job is there twice or without errors |
| JobWorker.RecordEqualsSequence | src/mediators/job_worker.rs:136-140 | for every interleaving, the tables recorded for a batch are those of sequential processing, up to timestamps |
| JobWorker.BatchIsCounted | src/mediators/job_worker.rs:136-140 | for every interleaving, a batch raises the succeeded total by the number of its jobs whose handler succeeds and the errored total by the number whose handler fails, whether or not the recording then fails |
| JobWorker.TotalsAreOutcomes | src/mediators/job_worker.rs:111-147 | over every run each total is, whenever no batch is in progress, the number of jobs worked with that outcome, and the jobs selected are both together |
| JobWorker.BatchesAreDue | src/mediators/job_worker.rs:160-166 | a batch holds live jobs whose time has come, as their rows have them, each once: all there are, or 1000 |
| JobWorker.NextBatch | src/mediators/job_worker.rs:122-130 | after a batch, or finding no jobs, a worker told to run once closes its work channel and any other selects again |
| JobWorker.LoopsOn | src/mediators/job_worker.rs:116-145 | a worker not told to run once never stops unless a recording fails |
| JobWorker.SendsNeverBlock | src/mediators/job_worker.rs:49-50 | no send on either channel ever waits |
| JobWorker.NeverStuck | src/mediators/job_worker.rs:116-145 | with at least one worker some program step is always enabled until the run is over |
| JobWorker.MeasureFalls | src/mediators/job_worker.rs:392-427 | every program step within a batch, and every one of a single-batch run, lowers a measure that the environment cannot raise |
| JobWorker.BatchesAreBounded | src/mediators/job_worker.rs:116-145 | within a batch, of a looping worker too, the program takes boundedly many steps however it interleaves |
| JobWorker.BatchesFinish | src/mediators/job_worker.rs:132-140 | a batch in progress, of a looping worker too, can always be worked until all its results are collected and can be recorded |
| JobWorker.RunsAreBounded | src/mediators/job_worker.rs:142-144 | a single-batch run takes boundedly many steps however it interleaves |
| JobWorker.RunsFinish | src/mediators/job_worker.rs:77-86 | such a run can always be finished; then all workers have exited and been joined, the channels are empty and the totals add up |
| JobWorker.RetriesAlways | src/mediators/job_worker.rs:233-258 | over every run from freshly enqueued jobs, recordings that fail included, a job is live if and only if fewer than 10 failures of it are recorded, and it is attempted at most 10 times plus once for each of its results that a failed recording lost |
| JobWorker.AtMostTenAttempts | src/mediators/job_worker.rs:196-196 | while no recording fails, no job is attempted more than 10 times |
| JobWorker.RetriesAcrossRuns | src/mediators/job_worker.rs:280-289 | the same over every sequence of runs on one job table, each finished, stopped by a failed recording, or killed in mid-batch |
| JobWorker.StartedRetries | migrations/2018-04-21-233945_create_job_system/up.sql:14-18 | freshly enqueued jobs satisfy the retry invariant at the start |
| JobWorker.DelaysAreRespected | src/mediators/job_worker.rs:152-170 | a job selected after its k-th failure waited at least k^4+3 seconds since it, and the sum of all delays since its first |
| JobWorker.DeadStaysDead | src/mediators/job_worker.rs:160-166 | a dead job is never selected and never changed |
| HtmlSanitizer.FindHref | src/html.rs:54-64 | the last un-namespaced href wins |
| HtmlSanitizer.OpenTag | src/html.rs:33-111 | what a node pushes before its children, and the end tag it chooses |
| HtmlSanitizer.Walk | src/html.rs:29-120 | whatever the buffer held, the walk appends exactly the rendering of the filtered node |
| HtmlSanitizer.ForestInOrder | src/html.rs:113-115 | siblings are printed one after the other |
| HtmlSanitizer.KeptElement | src/html.rs:72-85 | each of blockquote, code, em, li, ol, p, strong, sub, sup and ul is printed as itself without attributes, around what its children print |
| HtmlSanitizer.BoldElement | src/html.rs:91-94 | bold is printed as strong |
| HtmlSanitizer.ItalicElement | src/html.rs:95-98 | i is printed as em |
| HtmlSanitizer.RuleElement | src/html.rs:87-88 | hr is printed without an end tag, ahead of what its children print |
| HtmlSanitizer.LinkElement | src/html.rs:53-70 | an a with an un-namespaced href is printed as a link with the last one's value and rel="nofollow", and nothing else of its attributes |
| HtmlSanitizer.PlainAnchor | src/html.rs:66-69 | an a without one gives way to what its children print |
| HtmlSanitizer.OtherElement | src/html.rs:100-100 | every other element gives way to what its children print |
| HtmlSanitizer.OtherNode | src/html.rs:33-42 | so do elements of other namespaces, comments, doctypes and documents; a text prints itself |
| HtmlSanitizer.KeptTagsAre | src/html.rs:73-82 | the tags allowed by the lemmas below are those ten |
| HtmlSanitizer.OutputIsAllowed | src/html.rs:50-101 | the tokens printed are allowed tags only, with href and rel on links and nothing on others |
| HtmlSanitizer.ReadsAsMeantExactly | src/html.rs:29-120 | of the string itself: read back it shows exactly the tags and attributes printed and the text around them if and only if no text below the node holds `<` and no href of a link kept holds a double quote |
| HtmlSanitizer.OnlyAllowedTagsAreRead | src/html.rs:50-101 | under that condition every tag the string shows is an allowed one, with only href and rel on links and nothing on others |
| HtmlSanitizer.TextShowsTagExample | src/html.rs:108-111 | a text `<script>` reads back as a tag |
| HtmlSanitizer.QuoteShowsAttribute | src/html.rs:66-68 | a quote in an href ends its value, and what follows it in the form of an attribute reads back as one |
| HtmlSanitizer.QuoteShowsAttributeExample | src/html.rs:66-68 | a link to `x" title="y` reads back with a title |
| HtmlSanitizer.OutputIsWellNested | src/html.rs:117-119 | every tag opened is closed in the right order |
| HtmlSanitizer.OutputParsesBack | src/html.rs:29-120 | the printed tokens parse back to exactly the filtered forest |
| HtmlSanitizer.TextIsKept | src/html.rs:107-115 | all text is kept, in document order |
| HtmlSanitizer.FilterTwice | src/html.rs:29-120 | the forest let through, taken as a document again, is let through whole |
| HttpRequester.Client.ExecuteInner | src/http_requester.rs:88-160 | follows redirects as specified and sends exactly the specified requests with the two fixed headers |
| HttpRequester.Client.Execute | src/http_requester.rs:163-166 | a fetch sends at most 5 requests, each with the caller's verb, the gzip encoding and the fixed user agent |
| HttpRequester.RequestsFollowRedirects | src/http_requester.rs:113-123 | the requests sent begin at the given URI, each next one is where a response of status 300 to 399 with a location that is a URI points, and they stop where there is none or at the fifth |
| HttpRequester.SucceedsWithinLimit | src/http_requester.rs:94-96 | a fetch succeeds if and only if within 5 requests a response is reached whose status is not 300 to 399 and whose body, decompressed if and only if it is marked gzip, can be read; it returns that status and body |
| HttpRequester.ReportedUri | src/http_requester.rs:127-134 | the code always reports the URI given; the rule of its comment reports the end of the leading run of permanent redirects (section 3 of RFC 7538) |
| HttpRequester.ShadowedStatusExactly | src/http_requester.rs:125-134 | on any network, code and comment differ if and only if a readable non-redirect is reached within the limit and the leading permanent redirects end at another URI |
| HttpRequester.ShadowedStatusOnFirst | src/http_requester.rs:125-134 | when answers depend on the URI alone, they differ if and only if such a response is reached and the first one is a 308 |
| HttpRequester.ShadowedStatusExample | src/http_requester.rs:125-134 | a feed moved permanently is still reported at its old URI |
| Links.Slug | src/links.rs:63-123 | the loop with its early returns equals the slug function |
| Links.LoopIsCutThenFit | src/links.rs:68-120 | the single loop is a cut of the title followed by fitting its words |
| Links.TitleEnds | src/links.rs:72-87 | the title's words are those of the pieces before the first of `-`, em dash, vertical bar, `:` and `//` to stand alone after a word, and up to the first word at or after a trailing colon |
| Links.SplitIsUndone | src/links.rs:65-65 | the pieces hold no white space, and with the title's white space between them they are the title |
| Links.FilterSnoc | src/links.rs:84-85 | replacing keeps, character by character and in order, exactly those asked for |
| Links.SanitizeFilters | src/links.rs:84-85 | a word keeps exactly the alphanumeric characters of the lower-cased piece |
| Links.SlugIsLongestFit | src/links.rs:91-115 | a slug is the longest prefix of the title's alphanumeric words that fits 40, hyphenated, or the start of one overlong word; it is never empty and never longer |
| Links.NoSlugWithoutWords | src/links.rs:84-89 | there is no slug if and only if no piece of the title has an alphanumeric character |
| Links.LeadingColonExactly | src/links.rs:80-89 | the slug is the described one if and only if no bare colon leads a title whose second word would have fitted |
| Links.LeadingColonExample | src/links.rs:117-119 | the title `: a b`, split at its spaces, gives `a` instead of `a-b` |
| Links.UnslugUndoesSlug | src/links.rs:31-38 | the id comes back from any slug if and only if it is not negative |
| PodcastReingester.PageTakesLowest | src/mediators/podcast_reingester.rs:141-144 | a page holds the lowest ids above its start without gaps, and falls short only when none are left |
| PodcastReingester.PagePodcasts | src/mediators/podcast_reingester.rs:71-97 | the loop sends what the specification says over any sequence of table snapshots, and counts exactly the sends |
| PodcastReingester.SendsAscending | src/mediators/podcast_reingester.rs:87-91 | sends are strictly ascending, hence none twice, whatever is inserted or deleted between pages |
| PodcastReingester.SendsWhatWasSeen | src/mediators/podcast_reingester.rs:99-152 | each podcast is sent with the content and URL some query saw for it |
| PodcastReingester.SendsAllThatStay | src/mediators/podcast_reingester.rs:78-93 | a finished run has sent every positive-id podcast present throughout |
| PodcastReingester.FixedTableEnds | src/mediators/podcast_reingester.rs:78-93 | on any fixed table enough queries end a run, successfully if and only if every podcast above the start has a content and a location |
| PodcastReingester.FixedTableTerminates | src/mediators/podcast_reingester.rs:81-85 | on a fixed table whose podcasts all have a content and a location, a run finishes after exactly the number of queries its rows need |
| PodcastReingester.FixedTableSendsAll | src/mediators/podcast_reingester.rs:71-97 | on such a table exactly the podcasts with positive ids are sent |

## Left out

- quick-xml: the tokenizer and its read errors are not modelled; `read_to_end` is modelled from its documented behaviour, counting nested tags of the same name, and the event stream is error-free.
- html5ever: the sanitiser starts from a parsed tree. Processing instructions, which the code calls unreachable (src/html.rs:105), have no constructor in it.
- HtmlSanitizer.OutputParsesBack: about tokens; for the string see HtmlSanitizer.ReadsAsMeantExactly.
- HtmlSanitizer.OutputIsAllowed: about tokens; for the string see HtmlSanitizer.OnlyAllowedTagsAreRead.
- HtmlSanitizer.ReadsAsMeantExactly: its reader knows text, tags and attributes of the form name="value"; entities and the repairs an HTML parser makes are html5ever's.
- HtmlSanitizer.FilterTwice: about the forest; sanitising the printed string again parses it again, and may decode an entity or read a tag that text spells, so the string can change.
- parse_date_time: an arbitrary partial function, as it rests on chrono and regex.
- SHA-256, gzip and HTTP transport are foreign calls; of gzip only the compressed length matters to a constraint.
- The empty batch: an INSERT of no rows is a statement that writes nothing.
- The exception tables hold at most one row an owner, so they are keyed by the owner instead of by their own row ids.
- Rows that tie on the newest retrieval time: the database may pick any, the model picks the lowest id. INSERT ... RETURNING gives rows in the order they were given.
- The row of the "Apple iTunes" directory, which a migration inserts, is taken to exist.
- The commit that fails: taken to leave the tables as before the transaction.
- PodcastReruns.SecondRunChangesNothing: says nothing of a first run that fails; such a run is covered by PodcastRuns.FailureIsContained.
- JobWorker.RunsAreBounded: for a worker told to run once; the endless loop as a whole has no bound, and JobWorker.BatchesAreBounded bounds each of its batches.
- Handlers are taken to return, and to neither panic nor fail the process: a lost result would leave `wait_results` waiting. Of the database errors that end a run early, a failing recording is a step of the machine; a failing selection is not.
- Several control processes on one job table, and concurrent first searches for the same query: the code takes no lock for either.
- The worker side of the reingester's channel, and the bound of that channel.
- The cleaner's account, key and content batches and the search cleaner's own loop: they repeat the loop proved for directory podcasts. Deleting contents and expired searches appear as steps of the histories.
- podcast_crawler, podcast_feed_location_upgrader, and the account, subscription, favourite and played mediators: single statements or repeats of the paging loop.
- Web and API servers, GraphQL, logging, timing and error reporting.
