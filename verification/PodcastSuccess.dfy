/** When an updater run succeeds, in terms of what can be known before it. */
module PodcastSuccess {
  import opened Wrappers
  import opened Collections
  import opened FeedParser
  import opened EpisodeConversion
  import opened EpisodeUpsert
  import opened Schema
  import opened PodcastUpdater
  import opened PodcastRuns

  // ---- What each part of a run needs -------------------------------------------------

  /** The URL a run fetches when its look-ups go through. */
  function UrlToFetch(locations: map<int, Location>, call: Call): string {
    match QueryPodcast(locations, call.feedUrl)
    case None => call.feedUrl
    case Some(owner) => LatestUrlOf(locations, owner, call.feedUrl)
  }

  /** The look-ups go through and the latest URL answers 200 with a body that decodes,
      parses and has a title. */
  predicate Fetchable(env: Env, locations: map<int, Location>, call: Call) {
    && QueryGivenUrl !in call.faults
    && (QueryPodcast(locations, call.feedUrl).Some? ==> SelectLatest !in call.faults)
    && var response := call.fetch(UrlToFetch(locations, call));
       && response.Some? && response.value.status == 200
       && Readable(env, response.value.body)
  }

  predicate Readable(env: Env, body: Bytes) {
    var text := env.decode(body);
    && text.Some?
    && var feed := FeedFrom(env.rules, env.tokenize(text.value));
       feed.Ok? && feed.value.podcast.title.Some?
  }

  lemma FetchesExactly(env: Env, locations: map<int, Location>, call: Call)
    ensures Fetch(env, locations, call).Ok? <==> Fetchable(env, locations, call)
  {
  }

  /** The podcast a run updates, or the one it inserts. */
  function Target(t: Tables, call: Call, url: string): int {
    match QueryPodcast(t.locations, url)
    case Some(owner) => owner
    case None => call.newPodcastId
  }

  predicate NoLonger(s: Option<string>, limit: nat) {
    s.Some? ==> |s.value| <= limit
  }

  /** Every column of the row is within its limit. */
  predicate PodcastShort(p: Podcast) {
    && |p.title| <= 200 && NoLonger(p.description, 2000) && NoLonger(p.language, 10)
    && NoLonger(p.linkUrl, 500) && NoLonger(p.imageUrl, 500)
  }

  predicate EpisodeShort(e: EpisodeRow) {
    && |e.title| <= 400 && |e.guid| <= 200 && |e.mediaUrl| <= 500
    && NoLonger(e.description, 20000) && NoLonger(e.linkUrl, 500) && NoLonger(e.mediaType, 100)
  }

  predicate Placeable(call: Call, f: Fetched) {
    && QueryFinalUrl !in call.faults && WritePodcast !in call.faults && WriteLocation !in call.faults
    && PodcastShort(f.podcast) && |f.url| <= 500
  }

  lemma PodcastUpsertsExactly(env: Env, t: Tables, call: Call, row: Podcast, url: string)
    requires Sound(env, t)
    ensures var r := PodcastUpserted(t, call, row, url);
            && (r.Ok? <==> QueryFinalUrl !in call.faults && WritePodcast !in call.faults && PodcastShort(row))
            && (r.Ok? ==> r.value.id == Target(t, call, url))
  {
  }

  lemma LocationUpsertsExactly(t: Tables, call: Call, podcastId: int, url: string)
    requires podcastId in t.podcasts && LocationsAt(t.locations, url) <= LocationsOf(t.locations, podcastId)
    ensures LocationUpserted(t, call, podcastId, url).Ok? <==> WriteLocation !in call.faults && |url| <= 500
  {
    var at := LocationsAt(t.locations, url);
    assert at * LocationsOf(t.locations, podcastId) == at;
  }

  lemma PlacesExactly(env: Env, t: Tables, call: Call, f: Fetched)
    requires Sound(env, t) && Fresh(t, call)
    ensures Place(t, call, f).Ok? <==> Placeable(call, f)
    ensures Place(t, call, f).Ok? ==> Place(t, call, f).value.podcastId == Target(t, call, f.url)
  {
    PodcastUpsertsExactly(env, t, call, f.podcast, f.url);
    PodcastOwnsUrl(env, t, call, f.podcast, f.url);
    var p := PodcastUpserted(t, call, f.podcast, f.url);
    if p.Ok? {
      LocationUpsertsExactly(p.value.tables, call, p.value.id, f.url);
    }
  }

  /** An episode that lacks nothing has a date that parses. */
  predicate DateParses(parse: DateParser, raw: RawEpisode) {
    raw.guid.Some? && raw.mediaUrl.Some? && raw.publishedAt.Some? && raw.title.Some?
    ==> parse(raw.publishedAt.value).Some?
  }

  predicate RowsFit(rows: seq<EpisodeRow>) {
    forall k :: 0 <= k < |rows| ==> EpisodeShort(rows[k])
  }

  predicate Ingestible(env: Env, call: Call, podcastId: int, f: Fetched) {
    && WriteContent !in call.faults && WriteEpisodes !in call.faults && RemoveException !in call.faults
    && env.gzipLength(f.body) <= 1000000
    && (forall raw <- f.feed.episodes :: DateParses(env.parseDate, raw))
    && (var converted := Converted(env.parseDate, f.feed.episodes, podcastId);
        converted.Ok? ==> RowsFit(converted.value))
  }

  lemma {:induction false} FittingRowsAreNotTooLong(
    episodes: map<int, EpisodeRow>, podcasts: set<int>, rows: seq<EpisodeRow>, newIds: nat -> int)
    requires RowsFit(rows)
    ensures UpsertRows(episodes, podcasts, rows, newIds) != Err(TooLong)
    decreases |rows|
  {
    if rows != [] {
      FittingRowsAreNotTooLong(episodes, podcasts, rows[..|rows| - 1], newIds);
    }
  }

  lemma EpisodesUpsertExactly(t: Tables, call: Call, rows: seq<EpisodeRow>, podcastId: int)
    requires EpisodesUnique(t.episodes) && FreshIds(t.episodes.Keys, call.newEpisodeIds) && podcastId in t.podcasts
    requires DistinctGuids(rows) && AllFor(rows, podcastId)
    ensures EpisodesUpserted(t, call, rows).Ok? <==> WriteEpisodes !in call.faults && RowsFit(rows)
  {
    var r := UpsertRows(t.episodes, t.podcasts.Keys, rows, call.newEpisodeIds);
    DistinctRowsNeverCollide(t.episodes, t.podcasts.Keys, rows, call.newEpisodeIds);
    NeverWithoutPodcast(t.episodes, t.podcasts.Keys, rows, call.newEpisodeIds, podcastId);
    if RowsFit(rows) {
      FittingRowsAreNotTooLong(t.episodes, t.podcasts.Keys, rows, call.newEpisodeIds);
    }
    if r.Ok? {
      forall k | 0 <= k < |rows|
        ensures EpisodeShort(rows[k])
      {
        UpsertedRowsFit(t.episodes, t.podcasts.Keys, rows, call.newEpisodeIds, k);
      }
    }
  }

  lemma ConvertsExactly(env: Env, raws: seq<RawEpisode>, podcastId: int)
    ensures Converted(env.parseDate, raws, podcastId).Ok? <==> forall raw <- raws :: DateParses(env.parseDate, raw)
  {
    FailsOnlyOnDates(env.parseDate, raws, podcastId);
    assert forall raw :: DateParses(env.parseDate, raw) <==> !ValidateEpisode(env.parseDate, raw, podcastId).Err?;
  }

  lemma IngestsExactly(env: Env, t: Tables, call: Call, podcastId: int, f: Fetched)
    requires Sound(env, t) && podcastId in t.podcasts
    requires call.newContentId !in t.contents && FreshIds(t.episodes.Keys, call.newEpisodeIds)
    requires FeedOf(env, f.body) == Ok(f.feed)
    ensures Ingest(env, t, call, podcastId, f).Ok? <==> Ingestible(env, call, podcastId, f)
  {
    ConvertsExactly(env, f.feed.episodes, podcastId);
    RowsOfBody(env, f.body, f.feed, podcastId);
    var c := ContentUpserted(env, t, call, podcastId, f.body);
    assert c.Ok? <==> WriteContent !in call.faults && env.gzipLength(f.body) <= CONTENT_LIMIT;
    var converted := ConvertAll(env, f.feed.episodes, podcastId);
    if c.Ok? && converted.Ok? {
      assert c.value.tables == t.(contents := c.value.tables.contents);
      EpisodesUpsertExactly(c.value.tables, call, converted.value, podcastId);
    }
  }

  // ---- A whole run ----------------------------------------------------------------------

  /** The body is stored for the podcast already, so an enabled shortcut is taken. */
  predicate IsStored(t: Tables, podcastId: int, body: Bytes) {
    ContentsAt(t.contents, podcastId, Sha256(body)) != {}
  }

  predicate Finishable(env: Env, t: Tables, call: Call, podcastId: int, f: Fetched) {
    && (!call.disableShortcut ==> CountContents !in call.faults)
    && ((!call.disableShortcut && IsStored(t, podcastId, f.body)) || Ingestible(env, call, podcastId, f))
  }

  lemma FinishesExactly(env: Env, p: Placed, call: Call, f: Fetched)
    requires Sound(env, p.tables) && p.podcastId in p.tables.podcasts
    requires call.newContentId !in p.tables.contents && FreshIds(p.tables.episodes.Keys, call.newEpisodeIds)
    requires FeedOf(env, f.body) == Ok(f.feed)
    ensures Finish(env, p, call, f).Ok? <==> Finishable(env, p.tables, call, p.podcastId, f)
  {
    IngestsExactly(env, p.tables, call, p.podcastId, f);
    SomeOrNone(ContentsAt(p.tables.contents, p.podcastId, Sha256(f.body)));
  }

  /** What a run fetches when it is fetchable. */
  function FetchedBy(env: Env, locations: map<int, Location>, call: Call): Fetched
    requires Fetchable(env, locations, call)
  {
    var response := call.fetch(UrlToFetch(locations, call)).value;
    var feed := FeedFrom(env.rules, env.tokenize(env.decode(response.body).value)).value;
    Fetched(response.finalUrl, response.body, feed, ConvertPodcast(feed.podcast, call.times.podcast).value)
  }

  lemma FetchesWhatItShould(env: Env, locations: map<int, Location>, call: Call)
    requires Fetchable(env, locations, call)
    ensures Fetch(env, locations, call) == Ok(FetchedBy(env, locations, call))
  {
    assert SelectLatestUrl(locations, call) == Ok(UrlToFetch(locations, call));
  }

  /** Every condition of a successful run, each known before it: no statement on its
      path fails, the latest URL answers with a feed that has a title, the podcast's
      row and the final URL fit, and either the shortcut is enabled and the body is
      stored for the podcast that owns that URL, or the content fits, the date of
      every complete episode parses, and every row kept fits. */
  ghost predicate Runnable(env: Env, t: Tables, call: Call) {
    && Begin !in call.faults && Commit !in call.faults
    && Fetchable(env, t.locations, call)
    && var f := FetchedBy(env, t.locations, call);
       Placeable(call, f) && Finishable(env, t, call, Target(t, call, f.url), f)
  }

  /** A run is its three parts inside a transaction. */
  lemma PartsExactly(env: Env, t: Tables, call: Call)
    ensures RunOutcome(env, t, call).result.Ok? <==>
            && Begin !in call.faults && Commit !in call.faults
            && var f := Fetch(env, t.locations, call);
               && f.Ok?
               && var p := Place(t, call, f.value);
                  p.Ok? && Finish(env, p.value, call, f.value).Ok?
  {
  }

  /** Main result: a run succeeds exactly when it is runnable. */
  lemma RunSucceedsExactly(env: Env, t: Tables, call: Call)
    requires Sound(env, t) && Fresh(t, call)
    ensures RunOutcome(env, t, call).result.Ok? <==> Runnable(env, t, call)
  {
    PartsExactly(env, t, call);
    FetchesExactly(env, t.locations, call);
    if Fetchable(env, t.locations, call) {
      FetchesWhatItShould(env, t.locations, call);
      var f := FetchedBy(env, t.locations, call);
      PlacesExactly(env, t, call, f);
      PlaceKeeps(env, t, call, f);
      if Place(t, call, f).Ok? {
        FinishesExactly(env, Place(t, call, f).value, call, f);
      }
    }
  }

  // ---- The shortcut ------------------------------------------------------------------------

  /** Main result: a run that is runnable stops short exactly when the shortcut is
      enabled and the body it will fetch is stored already for the podcast that owns
      the final URL. It then changes only the podcast's row and its location: its
      episodes keep the fields of whichever content was ingested last, and a
      recorded exception stays. */
  lemma ShortCircuitsExactly(env: Env, t: Tables, call: Call)
    requires Sound(env, t) && Fresh(t, call) && Runnable(env, t, call)
    ensures RunOutcome(env, t, call).result.Ok?
    ensures var out, f := RunOutcome(env, t, call), FetchedBy(env, t.locations, call);
            var target := Target(t, call, f.url);
            && out.result.value.podcastId == target
            && (out.result.value.episodes.None? <==> !call.disableShortcut && IsStored(t, target, f.body))
            && (out.result.value.episodes.None? ==>
                  out.tables == t.(podcasts := out.tables.podcasts, locations := out.tables.locations))
  {
    RunSucceedsExactly(env, t, call);
    FetchesWhatItShould(env, t.locations, call);
    var f := FetchedBy(env, t.locations, call);
    PlacesExactly(env, t, call, f);
    PlaceKeeps(env, t, call, f);
    FinishShortExactly(env, Place(t, call, f).value, call, f);
  }

  lemma FinishShortExactly(env: Env, p: Placed, call: Call, f: Fetched)
    requires Finish(env, p, call, f).Ok?
    ensures var d := Finish(env, p, call, f).value;
            && d.result.podcastId == p.podcastId
            && (d.result.episodes.None? <==> !call.disableShortcut && IsStored(p.tables, p.podcastId, f.body))
            && (d.result.episodes.None? ==> d.tables == p.tables)
  {
    SomeOrNone(ContentsAt(p.tables.contents, p.podcastId, Sha256(f.body)));
  }

  lemma FetchIgnoresShortcut(env: Env, locations: map<int, Location>, call: Call, disabled: bool)
    ensures Fetch(env, locations, call.(disableShortcut := disabled)) == Fetch(env, locations, call)
  {
    assert SelectLatestUrl(locations, call.(disableShortcut := disabled)) == SelectLatestUrl(locations, call);
  }

  lemma PlaceIgnoresShortcut(t: Tables, call: Call, f: Fetched, disabled: bool)
    ensures Place(t, call.(disableShortcut := disabled), f) == Place(t, call, f)
  {
    var other := call.(disableShortcut := disabled);
    assert PodcastUpserted(t, other, f.podcast, f.url) == PodcastUpserted(t, call, f.podcast, f.url);
  }

  lemma RunnableWithShortcut(env: Env, t: Tables, call: Call)
    requires CountContents !in call.faults && Runnable(env, t, call.(disableShortcut := true))
    ensures Runnable(env, t, call.(disableShortcut := false))
  {
    var with, without := call.(disableShortcut := false), call.(disableShortcut := true);
    assert FetchedBy(env, t.locations, with) == FetchedBy(env, t.locations, without);
  }

  /** Main result: the shortcut decides nothing. Whenever the same run would succeed
      with it disabled, and the content can be counted, it succeeds with it enabled
      and the same GUIDs are stored for every podcast. */
  lemma ShortcutHidesNothing(env: Env, t: Tables, call: Call)
    requires Sound(env, t) && Fresh(t, call)
    requires CountContents !in call.faults && RunOutcome(env, t, call.(disableShortcut := true)).result.Ok?
    ensures var with := RunOutcome(env, t, call.(disableShortcut := false));
            var without := RunOutcome(env, t, call.(disableShortcut := true));
            && with.result.Ok? && with.result.value.podcastId == without.result.value.podcastId
            && forall p :: PresentGuids(with.tables.episodes, p) == PresentGuids(without.tables.episodes, p)
  {
    var with, without := call.(disableShortcut := false), call.(disableShortcut := true);
    RunSucceedsExactly(env, t, without);
    RunnableWithShortcut(env, t, call);
    RunSucceedsExactly(env, t, with);
    SuccessStoresTheGuids(env, t, with);
    SuccessStoresTheGuids(env, t, without);
    FetchIgnoresShortcut(env, t.locations, call, false);
    FetchIgnoresShortcut(env, t.locations, call, true);
    var f := Fetch(env, t.locations, call).value;
    PlaceIgnoresShortcut(t, call, f, false);
    PlaceIgnoresShortcut(t, call, f, true);
  }

  // ---- The URL that is fetched ---------------------------------------------------------------

  /** A location of the podcast that none of its others was retrieved after. */
  predicate IsNewestOf(locations: map<int, Location>, podcastId: int, id: int) {
    && id in locations && locations[id].podcastId == podcastId
    && forall other <- locations :: locations[other].podcastId == podcastId
                                    ==> locations[other].lastRetrievedAt <= locations[id].lastRetrievedAt
  }

  lemma {:induction false} LatestExists(locations: map<int, Location>, ids: set<int>) returns (latest: int)
    requires ids != {} && ids <= locations.Keys
    ensures latest in ids && forall id <- ids :: locations[id].lastRetrievedAt <= locations[latest].lastRetrievedAt
  {
    var id := PickOne(ids);
    latest := id;
    if ids != {id} {
      var rest := LatestExists(locations, ids - {id});
      if locations[rest].lastRetrievedAt > locations[id].lastRetrievedAt {
        latest := rest;
      }
      assert forall other <- ids :: other == id || other in ids - {id};
    }
  }

  /** Main result: the URL fetched is the one its podcast was retrieved at last, among all
      that the podcast owning the given URL has; a URL nobody owns is fetched itself. */
  lemma LatestUrlIsFetched(locations: map<int, Location>, call: Call, given: int) returns (newest: int)
    requires UrlsUnique(locations) && QueryGivenUrl !in call.faults && SelectLatest !in call.faults
    requires given in locations && locations[given].feedUrl == call.feedUrl
    ensures IsNewestOf(locations, locations[given].podcastId, newest)
    ensures SelectLatestUrl(locations, call) == Ok(locations[newest].feedUrl)
  {
    assert given in LocationsAt(locations, call.feedUrl);
    var owner := locations[given].podcastId;
    assert given in LocationsOf(locations, owner);
    var latest := LatestExists(locations, LocationsOf(locations, owner));
    assert latest in Newest(locations, owner);
    newest := Least(Newest(locations, owner));
    assert forall other <- locations :: locations[other].podcastId == owner ==> other in LocationsOf(locations, owner);
  }

  lemma UnownedUrlIsFetched(locations: map<int, Location>, call: Call)
    requires QueryGivenUrl !in call.faults
    requires forall id :: id in locations ==> locations[id].feedUrl != call.feedUrl
    ensures SelectLatestUrl(locations, call) == Ok(call.feedUrl)
  {
    assert forall id :: id in locations ==> id !in LocationsAt(locations, call.feedUrl);
    assert LocationsAt(locations, call.feedUrl) == {};
  }
}
