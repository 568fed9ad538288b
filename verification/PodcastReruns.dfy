/** What a full run leaves behind, and running the updater a second time. */
module PodcastReruns {
  import opened Wrappers
  import opened Collections
  import opened EpisodeConversion
  import opened EpisodeUpsert
  import opened Schema
  import opened PodcastUpdater
  import opened PodcastRuns
  import opened PodcastSuccess

  // ---- What a full run leaves -------------------------------------------------------

  /** The feed is stored in full: its podcast row, its URL for that podcast, its
      content, each row its episodes convert to at the id returned for it, and no
      exception. */
  ghost predicate Stored(env: Env, t: Tables, f: Fetched, r: RunResult) {
    && r.podcastId in t.podcasts && t.podcasts[r.podcastId] == f.podcast
    && r.locationId in t.locations
    && t.locations[r.locationId].feedUrl == f.url && t.locations[r.locationId].podcastId == r.podcastId
    && ContentsAt(t.contents, r.podcastId, Sha256(f.body)) != {}
    && r.podcastId !in t.podcastExceptions
    && EpisodesStored(env, t, f, r)
  }

  ghost predicate EpisodesStored(env: Env, t: Tables, f: Fetched, r: RunResult) {
    && r.episodes.Some?
    && ConvertAll(env, f.feed.episodes, r.podcastId).Ok?
    && Holds(Upserted(t.episodes, r.episodes.value), ConvertAll(env, f.feed.episodes, r.podcastId).value)
  }

  /** The body is stored for the podcast, as last retrieved at this time. */
  ghost predicate ContentAt(contents: map<int, Content>, podcastId: int, body: Bytes, time: int) {
    exists id :: id in ContentsAt(contents, podcastId, Sha256(body)) && contents[id].retrievedAt == time
  }

  /** Everything fetched satisfies the CHECK constraints. */
  ghost predicate Fits(env: Env, f: Fetched, podcastId: int) {
    && PodcastFits(f.podcast) && |f.url| <= URL_LIMIT && env.gzipLength(f.body) <= CONTENT_LIMIT
    && (ConvertAll(env, f.feed.episodes, podcastId).Ok? ==>
          var rows := ConvertAll(env, f.feed.episodes, podcastId).value;
          forall k :: 0 <= k < |rows| ==> EpisodeFits(rows[k]))
  }

  /** A location known before keeps when it was first retrieved, a new one starts
      at the clock. */
  predicate LocationMoved(before: map<int, Location>, after: map<int, Location>, id: int, times: Times)
  {
    && id in after && after == before[id := after[id]]
    && after[id].lastRetrievedAt == times.locationLast
    && (if id in before then after[id] == before[id].(lastRetrievedAt := times.locationLast)
        else after[id].firstRetrievedAt == times.locationFirst)
  }

  lemma PlaceStores(env: Env, t: Tables, call: Call, f: Fetched)
    requires Sound(env, t) && Fresh(t, call) && Place(t, call, f).Ok?
    ensures var p := Place(t, call, f).value;
            && p.tables.podcasts == t.podcasts[p.podcastId := f.podcast]
            && PodcastFits(f.podcast) && |f.url| <= URL_LIMIT
            && LocationMoved(t.locations, p.tables.locations, p.locationId, call.times)
            && (QueryPodcast(t.locations, f.url).Some? ==> QueryPodcast(t.locations, f.url).value == p.podcastId)
  {
    PodcastOwnsUrl(env, t, call, f.podcast, f.url);
    var w := PodcastUpserted(t, call, f.podcast, f.url).value;
    LocationAdded(w.tables, call, w.id, f.url);
  }

  lemma LocationAdded(t: Tables, call: Call, podcastId: int, url: string)
    requires LocationUpserted(t, call, podcastId, url).Ok? && call.newLocationId !in t.locations
    ensures var w := LocationUpserted(t, call, podcastId, url).value;
            && |url| <= URL_LIMIT && w.tables == t.(locations := w.tables.locations)
            && LocationMoved(t.locations, w.tables.locations, w.id, call.times)
  {
  }

  /** Main result: a successful run, even one that stops short, gives the podcast the
      feed's fields and the clock's retrieval time, and its location likewise. */
  lemma SuccessPlaces(env: Env, t: Tables, call: Call)
    requires Sound(env, t) && Fresh(t, call) && RunOutcome(env, t, call).result.Ok?
    ensures Fetch(env, t.locations, call).Ok?
    ensures var out, f := RunOutcome(env, t, call), Fetch(env, t.locations, call).value;
            var r := out.result.value;
            && out.tables.podcasts == t.podcasts[r.podcastId := f.podcast]
            && f.podcast.lastRetrievedAt == call.times.podcast
            && PodcastFits(f.podcast) && |f.url| <= URL_LIMIT
            && LocationMoved(t.locations, out.tables.locations, r.locationId, call.times)
            && out.tables.locations[r.locationId].feedUrl == f.url
            && out.tables.locations[r.locationId].podcastId == r.podcastId
            && (QueryPodcast(t.locations, f.url).Some? ==> QueryPodcast(t.locations, f.url).value == r.podcastId)
  {
    FetchedIsRead(env, t.locations, call);
    var f := Fetch(env, t.locations, call).value;
    PlaceKeeps(env, t, call, f);
    PlaceStores(env, t, call, f);
    FinishKeeps(env, Place(t, call, f).value, call, f);
  }

  lemma ContentStored(env: Env, t: Tables, call: Call, podcastId: int, body: Bytes)
    requires ContentUpserted(env, t, call, podcastId, body).Ok?
    ensures var w := ContentUpserted(env, t, call, podcastId, body).value;
            && env.gzipLength(body) <= CONTENT_LIMIT
            && w.tables == t.(contents := w.tables.contents)
            && ContentAt(w.tables.contents, podcastId, body, call.times.content)
  {
    var w := ContentUpserted(env, t, call, podcastId, body).value;
    assert w.id in ContentsAt(w.tables.contents, podcastId, Sha256(body));
  }

  lemma EpisodesAreStored(t: Tables, call: Call, rows: seq<EpisodeRow>)
    requires EpisodesUnique(t.episodes) && FreshIds(t.episodes.Keys, call.newEpisodeIds)
    requires EpisodesUpserted(t, call, rows).Ok?
    ensures var i := EpisodesUpserted(t, call, rows).value;
            i.tables == t.(episodes := i.tables.episodes) && Holds(Upserted(i.tables.episodes, i.ids), rows)
  {
    UpsertHoldsRows(t.episodes, t.podcasts.Keys, rows, call.newEpisodeIds);
  }

  lemma IngestStores(env: Env, t: Tables, call: Call, podcastId: int, f: Fetched)
    requires Sound(env, t) && podcastId in t.podcasts
    requires call.newContentId !in t.contents && FreshIds(t.episodes.Keys, call.newEpisodeIds)
    requires FeedOf(env, f.body) == Ok(f.feed) && Ingest(env, t, call, podcastId, f).Ok?
    ensures var i := Ingest(env, t, call, podcastId, f).value;
            && i.tables.podcasts == t.podcasts && i.tables.locations == t.locations
            && ContentAt(i.tables.contents, podcastId, f.body, call.times.content)
            && env.gzipLength(f.body) <= CONTENT_LIMIT
            && podcastId !in i.tables.podcastExceptions
            && ConvertAll(env, f.feed.episodes, podcastId).Ok?
            && Holds(Upserted(i.tables.episodes, i.ids), ConvertAll(env, f.feed.episodes, podcastId).value)
  {
    ContentStored(env, t, call, podcastId, f.body);
    var c := ContentUpserted(env, t, call, podcastId, f.body).value;
    EpisodesAreStored(c.tables, call, ConvertAll(env, f.feed.episodes, podcastId).value);
  }

  lemma IngestedRowsFit(env: Env, t: Tables, call: Call, podcastId: int, f: Fetched)
    requires Ingest(env, t, call, podcastId, f).Ok?
    ensures ConvertAll(env, f.feed.episodes, podcastId).Ok?
    ensures forall row <- ConvertAll(env, f.feed.episodes, podcastId).value :: EpisodeFits(row)
  {
    var rows := ConvertAll(env, f.feed.episodes, podcastId).value;
    forall row | row in rows
      ensures EpisodeFits(row)
    {
      var k :| 0 <= k < |rows| && rows[k] == row;
      UpsertedRowsFit(t.episodes, t.podcasts.Keys, rows, call.newEpisodeIds, k);
    }
  }

  /** Main result: a run that succeeds and does not stop short, whether or not the
      shortcut is enabled, stores the feed it fetched in full, its content as of the
      clock. */
  lemma FullRunStoresTheFeed(env: Env, t: Tables, call: Call)
    requires Sound(env, t) && Fresh(t, call)
    requires RunOutcome(env, t, call).result.Ok? && RunOutcome(env, t, call).result.value.episodes.Some?
    ensures Fetch(env, t.locations, call).Ok?
    ensures var out, f := RunOutcome(env, t, call), Fetch(env, t.locations, call).value;
            var r := out.result.value;
            && Stored(env, out.tables, f, r) && Fits(env, f, r.podcastId)
            && ContentAt(out.tables.contents, r.podcastId, f.body, call.times.content)
  {
    SuccessPlaces(env, t, call);
    FetchedIsRead(env, t.locations, call);
    var f := Fetch(env, t.locations, call).value;
    PlaceKeeps(env, t, call, f);
    var p := Place(t, call, f).value;
    IngestStores(env, p.tables, call, p.podcastId, f);
    IngestedRowsFit(env, p.tables, call, p.podcastId, f);
  }

  // ---- What a run leaves alone --------------------------------------------------------

  /** One content of the podcast is new or has its time moved to the clock. */
  ghost predicate ContentMoved(
    before: map<int, Content>, after: map<int, Content>, podcastId: int, body: Bytes, time: int, id: int)
  {
    && id in after && after == before[id := after[id]]
    && after[id] == (if id in before then before[id] else Content(podcastId, Sha256(body), body, time))
                    .(retrievedAt := time)
    && after[id].podcastId == podcastId && after[id].hash == Sha256(body)
  }

  lemma ContentIsMoved(env: Env, t: Tables, call: Call, podcastId: int, body: Bytes)
    requires ContentUpserted(env, t, call, podcastId, body).Ok? && call.newContentId !in t.contents
    ensures var w := ContentUpserted(env, t, call, podcastId, body).value;
            && w.tables == t.(contents := w.tables.contents)
            && ContentMoved(t.contents, w.tables.contents, podcastId, body, call.times.content, w.id)
  {
  }

  /** What ingesting changes of the tables. */
  ghost predicate OnlyIngested(t: Tables, t': Tables, podcastId: int, ids: seq<int>, body: Bytes, time: int) {
    && t' == t.(contents := t'.contents, episodes := t'.episodes, podcastExceptions := t'.podcastExceptions)
    && (exists id :: ContentMoved(t.contents, t'.contents, podcastId, body, time, id))
    && OnlyWritten(t.episodes, Upserted(t'.episodes, ids))
    && (forall id :: id in t'.podcastExceptions <==> id in t.podcastExceptions && id != podcastId)
    && (forall id :: id in t'.podcastExceptions ==> t'.podcastExceptions[id] == t.podcastExceptions[id])
  }

  lemma IngestChangesOnly(env: Env, t: Tables, call: Call, podcastId: int, f: Fetched)
    requires call.newContentId !in t.contents && Ingest(env, t, call, podcastId, f).Ok?
    ensures var i := Ingest(env, t, call, podcastId, f).value;
            OnlyIngested(t, i.tables, podcastId, i.ids, f.body, call.times.content)
  {
    ContentIsMoved(env, t, call, podcastId, f.body);
    var c := ContentUpserted(env, t, call, podcastId, f.body).value;
    var rows := ConvertAll(env, f.feed.episodes, podcastId).value;
    UpsertTouchesWritten(c.tables.episodes, c.tables.podcasts.Keys, rows, call.newEpisodeIds);
    var u := UpsertRows(c.tables.episodes, c.tables.podcasts.Keys, rows, call.newEpisodeIds).value;
    assert u == Upserted(u.episodes, u.written);
  }

  /** Main result: beside its podcast and its location a successful run changes nothing
      when it stops short, and otherwise one content of its podcast, the episodes it
      returns and its podcast's exception. Other podcasts' exceptions, other contents
      with their times, the fields of other episodes and the directory tables stay. */
  lemma SuccessLeavesTheRest(env: Env, t: Tables, call: Call)
    requires Sound(env, t) && Fresh(t, call) && RunOutcome(env, t, call).result.Ok?
    ensures Fetch(env, t.locations, call).Ok?
    ensures var out, f := RunOutcome(env, t, call), Fetch(env, t.locations, call).value;
            var r := out.result.value;
            var placed := t.(podcasts := out.tables.podcasts, locations := out.tables.locations);
            if r.episodes.None? then out.tables == placed
            else OnlyIngested(placed, out.tables, r.podcastId, r.episodes.value, f.body, call.times.content)
  {
    var f := Fetch(env, t.locations, call).value;
    var p := Place(t, call, f).value;
    PlaceChangesOnly(t, call, f);
    if RunOutcome(env, t, call).result.value.episodes.Some? {
      IngestChangesOnly(env, p.tables, call, p.podcastId, f);
    }
  }

  lemma PlaceChangesOnly(t: Tables, call: Call, f: Fetched)
    requires Place(t, call, f).Ok?
    ensures var p := Place(t, call, f).value;
            p.tables == t.(podcasts := p.tables.podcasts, locations := p.tables.locations)
  {
  }

  // ---- The second run -------------------------------------------------------------------

  /** The requester that answers every URL with the same body, from that URL. */
  ghost predicate PassThrough(call: Call, body: Bytes) {
    forall url :: call.fetch(url) == Some(Response(OK_STATUS, body, url))
  }

  predicate SameLocation(a: Location, b: Location) {
    a.(lastRetrievedAt := 0) == b.(lastRetrievedAt := 0)
  }

  predicate SameContent(a: Content, b: Content) {
    a.(retrievedAt := 0) == b.(retrievedAt := 0)
  }

  /** The same rows under the same ids, up to retrieval times. */
  ghost predicate SameButTimes(a: Tables, b: Tables) {
    && a == b.(podcasts := a.podcasts, locations := a.locations, contents := a.contents)
    && a.podcasts.Keys == b.podcasts.Keys
    && (forall id :: id in a.podcasts ==> SameButTime(a.podcasts[id], b.podcasts[id]))
    && a.locations.Keys == b.locations.Keys
    && (forall id :: id in a.locations ==> SameLocation(a.locations[id], b.locations[id]))
    && a.contents.Keys == b.contents.Keys
    && (forall id :: id in a.contents ==> SameContent(a.contents[id], b.contents[id]))
  }

  /** Every stored retrieval time is before the clock. */
  ghost predicate Past(locations: map<int, Location>, now: int) {
    forall id :: id in locations ==> locations[id].lastRetrievedAt < now
  }

  /** The URL fetched belongs to whichever podcast owns the given one. */
  lemma LatestUrlHasSameOwner(env: Env, t: Tables, call: Call)
    requires Sound(env, t) && SelectLatestUrl(t.locations, call).Ok?
    ensures var latest := SelectLatestUrl(t.locations, call).value;
            match QueryPodcast(t.locations, call.feedUrl)
            case None => latest == call.feedUrl
            case Some(owner) => QueryPodcast(t.locations, latest) == Some(owner)
  {
    var owner := QueryPodcast(t.locations, call.feedUrl);
    if owner.Some? {
      var newest := Newest(t.locations, owner.value);
      if newest != {} {
        var id := Least(newest);
        OwnerOfLocation(t.locations, id);
      }
    }
  }

  lemma OwnerOfLocation(locations: map<int, Location>, id: int)
    requires UrlsUnique(locations) && id in locations
    ensures QueryPodcast(locations, locations[id].feedUrl) == Some(locations[id].podcastId)
  {
    assert id in LocationsAt(locations, locations[id].feedUrl);
  }

  /** A location just retrieved is the one the next run of its podcast picks. */
  lemma NewestIsLatest(locations: map<int, Location>, id: int, call: Call)
    requires UrlsUnique(locations) && id in locations
    requires QueryPodcast(locations, call.feedUrl) == Some(locations[id].podcastId)
    requires forall other :: other in locations && other != id
                             ==> locations[other].lastRetrievedAt < locations[id].lastRetrievedAt
    requires call.faults == {}
    ensures SelectLatestUrl(locations, call) == Ok(locations[id].feedUrl)
  {
    var newest := Newest(locations, locations[id].podcastId);
    assert id in newest;
    forall other | other in newest
      ensures other == id
    {
      assert locations[id].lastRetrievedAt <= locations[other].lastRetrievedAt;
    }
    assert newest == {id};
  }

  lemma KeptOwner(before: map<int, Location>, after: map<int, Location>, l: int, given: int, owner: int)
    requires UrlsUnique(before) && UrlsUnique(after) && given in before && l in after
    requires after == before[l := after[l]]
    requires l == given ==> after[l].feedUrl == before[l].feedUrl
    requires after[l].podcastId == owner && before[given].podcastId == owner
    ensures QueryPodcast(after, before[given].feedUrl) == Some(owner)
  {
    OwnerOfLocation(after, given);
  }

  /** A full run leaves the given URL with the podcast it updated. */
  lemma GivenUrlKeepsOwner(
    before: map<int, Location>, after: map<int, Location>, given: string, latest: string, l: int, podcastId: int)
    requires UrlsUnique(before) && UrlsUnique(after)
    requires l in after && after == before[l := after[l]]
    requires after[l].feedUrl == latest && after[l].podcastId == podcastId
    requires match QueryPodcast(before, given)
             case None => latest == given
             case Some(owner) => QueryPodcast(before, latest) == Some(owner) && owner == podcastId
    ensures QueryPodcast(after, given) == Some(podcastId)
  {
    if QueryPodcast(before, given).Some? {
      var id := Least(LocationsAt(before, given));
      if id == l {
        OwnerOfLocation(after, l);
        if latest != given {
          OtherOwnerGone(before, after, latest, l);
        }
      } else {
        KeptOwner(before, after, l, id, podcastId);
      }
    } else {
      OwnerOfLocation(after, l);
    }
  }

  /** A location's URL is never rewritten to one another location holds. */
  lemma OtherOwnerGone(before: map<int, Location>, after: map<int, Location>, latest: string, l: int)
    requires UrlsUnique(after) && l in before && l in after && after == before[l := after[l]]
    requires after[l].feedUrl == latest && QueryPodcast(before, latest).Some?
    ensures before[l].feedUrl == latest
  {
    var other := Least(LocationsAt(before, latest));
    assert other in after && after[other].feedUrl == latest;
    assert other == l;
  }

  /** Main result, first half: after a run from a pass-through requester, the
      same given URL leads to the same URL again. */
  lemma SecondRunPicksSameUrl(env: Env, t: Tables, first: Call, second: Call, body: Bytes)
    requires Sound(env, t) && Fresh(t, first) && Past(t.locations, first.times.locationLast)
    requires PassThrough(first, body) && second.feedUrl == first.feedUrl
    requires RunOutcome(env, t, first).result.Ok? && second.faults == {}
    ensures SelectLatestUrl(t.locations, first).Ok?
    ensures SelectLatestUrl(RunOutcome(env, t, first).tables.locations, second) == SelectLatestUrl(t.locations, first)
  {
    SuccessPlaces(env, t, first);
    RunKeepsSound(env, t, first);
    LatestUrlHasSameOwner(env, t, first);
    var latest := SelectLatestUrl(t.locations, first).value;
    assert Fetch(env, t.locations, first).value.url == latest;
    var out := RunOutcome(env, t, first);
    var after, r := out.tables.locations, out.result.value;
    GivenUrlKeepsOwner(t.locations, after, first.feedUrl, latest, r.locationId, r.podcastId);
    NewestIsLatest(after, r.locationId, second);
  }

  /** What the second run fetches is what the first did, but for the clock. */
  lemma SecondFetch(env: Env, t: Tables, after: Tables, first: Call, second: Call, body: Bytes)
    requires PassThrough(first, body) && PassThrough(second, body)
    requires Fetch(env, t.locations, first).Ok?
    requires SelectLatestUrl(after.locations, second) == SelectLatestUrl(t.locations, first)
    ensures var f := Fetch(env, t.locations, first).value;
            Fetch(env, after.locations, second) ==
            Ok(f.(podcast := f.podcast.(lastRetrievedAt := second.times.podcast)))
  {
    var latest := SelectLatestUrl(t.locations, first).value;
    assert FetchFeed(first, latest) == FetchFeed(second, latest);
  }

  lemma PlaceAgain(env: Env, t: Tables, call: Call, f: Fetched, r: RunResult)
    requires Sound(env, t) && call.faults == {}
    requires r.podcastId in t.podcasts && SameButTime(t.podcasts[r.podcastId], f.podcast)
    requires r.locationId in t.locations
    requires t.locations[r.locationId].feedUrl == f.url && t.locations[r.locationId].podcastId == r.podcastId
    requires PodcastFits(f.podcast) && |f.url| <= URL_LIMIT
    ensures var row := t.locations[r.locationId].(lastRetrievedAt := call.times.locationLast);
            var after := t.(podcasts := t.podcasts[r.podcastId := f.podcast],
                            locations := t.locations[r.locationId := row]);
            Place(t, call, f) == Ok(Placed(after, r.podcastId, r.locationId))
  {
    OwnerOfLocation(t.locations, r.locationId);
    var t1 := t.(podcasts := t.podcasts[r.podcastId := f.podcast]);
    assert PodcastUpserted(t, call, f.podcast, f.url) == Ok(Written(t1, r.podcastId));
    LocationAgain(t1, call, r.podcastId, f.url, r.locationId);
  }

  lemma LocationAgain(t: Tables, call: Call, podcastId: int, url: string, l: int)
    requires UrlsUnique(t.locations) && call.faults == {} && l in t.locations && |url| <= URL_LIMIT
    requires t.locations[l].feedUrl == url && t.locations[l].podcastId == podcastId
    ensures var row := t.locations[l].(lastRetrievedAt := call.times.locationLast);
            LocationUpserted(t, call, podcastId, url) == Ok(Written(t.(locations := t.locations[l := row]), l))
  {
    var at := LocationsAt(t.locations, url) * LocationsOf(t.locations, podcastId);
    assert l in at;
    assert Least(at) == l;
  }

  lemma ContentAgain(env: Env, t: Tables, call: Call, podcastId: int, body: Bytes)
    requires call.faults == {} && env.gzipLength(body) <= CONTENT_LIMIT
    requires ContentsAt(t.contents, podcastId, Sha256(body)) != {}
    ensures ContentUpserted(env, t, call, podcastId, body).Ok?
    ensures SameButTimes(t, ContentUpserted(env, t, call, podcastId, body).value.tables)
    ensures var w := ContentUpserted(env, t, call, podcastId, body).value;
            w.tables == t.(contents := w.tables.contents)
  {
  }

  lemma EpisodesAgain(t: Tables, call: Call, rows: seq<EpisodeRow>, ids: seq<int>)
    requires EpisodesUnique(t.episodes) && Holds(Upserted(t.episodes, ids), rows) && DistinctGuids(rows)
    requires call.faults == {}
    requires forall k :: 0 <= k < |rows| ==> EpisodeFits(rows[k]) && rows[k].podcastId in t.podcasts
    ensures EpisodesUpserted(t, call, rows) == Ok(Ingested(t, ids))
  {
    var u := Upserted(t.episodes, ids);
    UpsertAgain(u, t.podcasts.Keys, rows, call.newEpisodeIds, |rows|);
    assert rows[..|rows|] == rows && ids[..|rows|] == ids;
  }

  lemma IngestAgain(env: Env, t: Tables, call: Call, f: Fetched, r: RunResult)
    requires EpisodesUnique(t.episodes) && call.faults == {} && r.podcastId in t.podcasts
    requires FeedOf(env, f.body) == Ok(f.feed) && Fits(env, f, r.podcastId)
    requires ContentsAt(t.contents, r.podcastId, Sha256(f.body)) != {}
    requires r.podcastId !in t.podcastExceptions && EpisodesStored(env, t, f, r)
    ensures Ingest(env, t, call, r.podcastId, f).Ok?
    ensures Ingest(env, t, call, r.podcastId, f).value.ids == r.episodes.value
    ensures var after := Ingest(env, t, call, r.podcastId, f).value.tables;
            SameButTimes(t, after) && after == t.(contents := after.contents)
  {
    ContentAgain(env, t, call, r.podcastId, f.body);
    RowsOfBody(env, f.body, f.feed, r.podcastId);
    var c := ContentUpserted(env, t, call, r.podcastId, f.body).value.tables;
    var rows := ConvertAll(env, f.feed.episodes, r.podcastId).value;
    EpisodesAgain(c, call, rows, r.episodes.value);
    assert c.podcastExceptions - {r.podcastId} == c.podcastExceptions;
  }

  /** Main result, second half: the second run succeeds too, returns the same ids,
      and leaves the same rows under the same ids up to retrieval times. */
  lemma SecondRunChangesNothing(env: Env, t: Tables, first: Call, second: Call, body: Bytes)
    requires Sound(env, t) && Fresh(t, first) && Past(t.locations, first.times.locationLast)
    requires PassThrough(first, body) && PassThrough(second, body)
    requires second.disableShortcut && second.feedUrl == first.feedUrl && second.faults == {}
    requires RunOutcome(env, t, first).result.Ok? && RunOutcome(env, t, first).result.value.episodes.Some?
    ensures var once := RunOutcome(env, t, first);
            var twice := RunOutcome(env, once.tables, second);
            twice.result == once.result && SameButTimes(once.tables, twice.tables)
  {
    FullRunStoresTheFeed(env, t, first);
    RunKeepsSound(env, t, first);
    FetchedIsRead(env, t.locations, first);
    SecondRunPicksSameUrl(env, t, first, second, body);
    var once := RunOutcome(env, t, first);
    SecondFetch(env, t, once.tables, first, second, body);
    var f := Fetch(env, t.locations, first).value;
    RunAgain(env, once.tables, second, f, once.result.value);
  }

  lemma RunAgain(env: Env, t: Tables, call: Call, f: Fetched, r: RunResult)
    requires Sound(env, t) && call.faults == {} && call.disableShortcut
    requires FeedOf(env, f.body) == Ok(f.feed) && Stored(env, t, f, r) && Fits(env, f, r.podcastId)
    requires Fetch(env, t.locations, call) == Ok(f.(podcast := f.podcast.(lastRetrievedAt := call.times.podcast)))
    ensures var out := RunOutcome(env, t, call);
            out.result == Ok(r) && SameButTimes(t, out.tables)
  {
    var f2 := f.(podcast := f.podcast.(lastRetrievedAt := call.times.podcast));
    PlaceAgain(env, t, call, f2, r);
    var placed := Place(t, call, f2).value;
    RowsMoveInTime(t, r.podcastId, f2.podcast, r.locationId, placed.tables.locations[r.locationId]);
    StillStored(env, t, placed.tables, f, f2, r);
    IngestAgain(env, placed.tables, call, f2, r);
    var i := Ingest(env, placed.tables, call, r.podcastId, f2).value;
    FullSteps(env, t, call, f2, placed, i);
    SameThroughBoth(t, placed.tables, i.tables);
  }

  lemma RowsMoveInTime(t: Tables, podcastId: int, podcast: Podcast, locationId: int, location: Location)
    requires podcastId in t.podcasts && SameButTime(t.podcasts[podcastId], podcast)
    requires locationId in t.locations && SameLocation(t.locations[locationId], location)
    ensures SameButTimes(t, t.(podcasts := t.podcasts[podcastId := podcast],
                               locations := t.locations[locationId := location]))
  {
  }

  lemma StillStored(env: Env, t: Tables, placed: Tables, f: Fetched, f2: Fetched, r: RunResult)
    requires Stored(env, t, f, r) && Fits(env, f, r.podcastId) && f2 == f.(podcast := f2.podcast)
    requires placed == t.(podcasts := placed.podcasts, locations := placed.locations)
    requires PodcastFits(f2.podcast)
    ensures ContentsAt(placed.contents, r.podcastId, Sha256(f2.body)) != {}
    ensures r.podcastId !in placed.podcastExceptions
    ensures EpisodesStored(env, placed, f2, r) && Fits(env, f2, r.podcastId)
  {
  }

  /** A run without faults or shortcut is its three steps one after another. */
  lemma FullSteps(env: Env, t: Tables, call: Call, f: Fetched, p: Placed, i: Ingested)
    requires call.faults == {} && call.disableShortcut
    requires Fetch(env, t.locations, call) == Ok(f) && Place(t, call, f) == Ok(p)
    requires Ingest(env, p.tables, call, p.podcastId, f) == Ok(i)
    ensures RunOutcome(env, t, call) == Outcome(i.tables, Ok(RunResult(p.podcastId, p.locationId, Some(i.ids))))
  {
  }

  lemma SameThroughBoth(a: Tables, b: Tables, c: Tables)
    requires SameButTimes(a, b) && SameButTimes(b, c)
    ensures SameButTimes(a, c)
  {
  }

  // ---- Content that returns --------------------------------------------------------------

  /** No content row is dropped or given to another podcast or body. */
  ghost predicate ContentsKept(before: map<int, Content>, after: map<int, Content>) {
    forall id :: id in before ==> id in after && SameContent(before[id], after[id])
  }

  lemma IngestKeepsContents(env: Env, t: Tables, call: Call, podcastId: int, f: Fetched)
    requires call.newContentId !in t.contents && Ingest(env, t, call, podcastId, f).Ok?
    ensures ContentsKept(t.contents, Ingest(env, t, call, podcastId, f).value.tables.contents)
  {
    var c := ContentUpserted(env, t, call, podcastId, f.body).value;
    assert ContentsKept(t.contents, c.tables.contents);
  }

  lemma SuccessKeepsContents(env: Env, t: Tables, call: Call)
    requires Sound(env, t) && Fresh(t, call) && RunOutcome(env, t, call).result.Ok?
    ensures ContentsKept(t.contents, RunOutcome(env, t, call).tables.contents)
  {
    var f := Fetch(env, t.locations, call).value;
    PlaceKeeps(env, t, call, f);
    var p := Place(t, call, f).value;
    FinishKeepsContents(env, p, call, f);
  }

  lemma FinishKeepsContents(env: Env, p: Placed, call: Call, f: Fetched)
    requires call.newContentId !in p.tables.contents && Finish(env, p, call, f).Ok?
    ensures ContentsKept(p.tables.contents, Finish(env, p, call, f).value.tables.contents)
  {
    if Finish(env, p, call, f).value.result.episodes.Some? {
      IngestKeepsContents(env, p.tables, call, p.podcastId, f);
    }
  }

  lemma KeptContentIsStored(before: map<int, Content>, after: map<int, Content>, podcastId: int, body: Bytes)
    requires ContentsKept(before, after) && ContentsAt(before, podcastId, Sha256(body)) != {}
    ensures ContentsAt(after, podcastId, Sha256(body)) != {}
  {
    var id := PickOne(ContentsAt(before, podcastId, Sha256(body)));
    assert id in ContentsAt(after, podcastId, Sha256(body));
  }

  /** Main result: content A, then B, then A again with the shortcut enabled. The third
      run stops short, and the podcast's episodes are still what B converts to. */
  lemma ReturningContentKeepsOtherFields(env: Env, t: Tables, first: Call, second: Call, third: Call)
    requires Sound(env, t) && Fresh(t, first)
    requires var a := RunOutcome(env, t, first);
             && a.result.Ok? && a.result.value.episodes.Some?
             && Fresh(a.tables, second)
             && var b := RunOutcome(env, a.tables, second);
                && b.result.Ok? && b.result.value.episodes.Some?
                && b.result.value.podcastId == a.result.value.podcastId
                && Fresh(b.tables, third) && !third.disableShortcut && Runnable(env, b.tables, third)
                && var f := FetchedBy(env, b.tables.locations, third);
                   && Target(b.tables, third, f.url) == a.result.value.podcastId
                   && Fetch(env, t.locations, first).Ok? && f.body == Fetch(env, t.locations, first).value.body
    ensures var a := RunOutcome(env, t, first).tables;
            var b, again := RunOutcome(env, a, second), RunOutcome(env, RunOutcome(env, a, second).tables, third);
            && again.result.Ok? && again.result.value.episodes.None?
            && again.tables.episodes == b.tables.episodes
            && Fetch(env, a.locations, second).Ok?
            && EpisodesStored(env, again.tables, Fetch(env, a.locations, second).value, b.result.value)
  {
    var a := RunOutcome(env, t, first);
    FullRunStoresTheFeed(env, t, first);
    RunKeepsSound(env, t, first);
    var b := RunOutcome(env, a.tables, second);
    FullRunStoresTheFeed(env, a.tables, second);
    RunKeepsSound(env, a.tables, second);
    SuccessKeepsContents(env, a.tables, second);
    var f := FetchedBy(env, b.tables.locations, third);
    KeptContentIsStored(a.tables.contents, b.tables.contents, a.result.value.podcastId, f.body);
    ShortCircuitsExactly(env, b.tables, third);
  }
}
