/** What every history of updater runs keeps, and what one run promises. */
module PodcastRuns {
  import opened Wrappers
  import opened Collections
  import opened FeedParser
  import opened EpisodeConversion
  import opened EpisodeUpsert
  import opened Schema
  import opened PodcastUpdater

  // ---- The invariant ---------------------------------------------------------------------

  /** The ids the sequences hand out are unused. */
  ghost predicate Fresh(t: Tables, call: Call) {
    && call.newPodcastId !in t.podcasts
    && call.newLocationId !in t.locations
    && call.newContentId !in t.contents
    && FreshIds(t.episodes.Keys, call.newEpisodeIds)
  }

  /** The GUIDs of the episodes a body converts to, if it is a feed that converts. */
  function BodyGuids(env: Env, body: Bytes): Option<set<string>> {
    match FeedOf(env, body)
    case Err(_) => None
    case Ok(feed) =>
      match Converted(env.parseDate, feed.episodes, 0)
      case Err(_) => None
      case Ok(rows) => Some(Guids(rows))
  }

  /** A stored content matches its hash, is a feed that converts, and has every
      GUID it converts to among its podcast's episodes. */
  ghost predicate Covered(env: Env, episodes: map<int, EpisodeRow>, c: Content) {
    && c.hash == Sha256(c.body)
    && BodyGuids(env, c.body).Some?
    && BodyGuids(env, c.body).value <= PresentGuids(episodes, c.podcastId)
  }

  ghost predicate AllCovered(env: Env, contents: map<int, Content>, episodes: map<int, EpisodeRow>) {
    forall id :: id in contents ==> Covered(env, episodes, contents[id])
  }

  ghost predicate Sound(env: Env, t: Tables) {
    Unique(t) && Refers(t) && AllCovered(env, t.contents, t.episodes)
  }

  /** The errors a run may stop with in a sound state: no index is violated and no
      reference is missing. */
  predicate Expected(e: UpdateError) {
    !e.UrlTaken? && !e.EpisodeTwice? && !e.MissingRow?
  }

  // ---- Placing the podcast -----------------------------------------------------------------

  /** The podcast chosen owns every location with the final URL. */
  lemma PodcastOwnsUrl(env: Env, t: Tables, call: Call, row: Podcast, url: string)
    requires Sound(env, t) && call.newPodcastId !in t.podcasts
    ensures var r := PodcastUpserted(t, call, row, url);
            match r
            case Err(e) => Expected(e)
            case Ok(w) =>
              && w.tables == t.(podcasts := w.tables.podcasts)
              && w.tables.podcasts.Keys == t.podcasts.Keys + {w.id}
              && LocationsAt(t.locations, url) <= LocationsOf(t.locations, w.id)
  {
    var at := LocationsAt(t.locations, url);
    if at != {} {
      assert at == {Least(at)};
    }
  }

  lemma PodcastsGrow(env: Env, t: Tables, podcasts: map<int, Podcast>)
    requires Sound(env, t) && t.podcasts.Keys <= podcasts.Keys
    ensures Sound(env, t.(podcasts := podcasts))
  {
    var t' := t.(podcasts := podcasts);
    assert forall id :: id in t.podcasts ==> id in podcasts;
    assert LocationsRefer(t'.locations, podcasts);
    assert ContentsRefer(t'.contents, podcasts);
    assert EpisodesRefer(t'.episodes, podcasts);
    assert DirectoryRefers(t'.directoryPodcasts, podcasts);
  }

  lemma UrlsStayUnique(locations: map<int, Location>, id: int, row: Location)
    requires UrlsUnique(locations) && LocationsAt(locations, row.feedUrl) <= {id}
    ensures UrlsUnique(locations[id := row])
  {
    assert forall i :: i in locations && locations[i].feedUrl == row.feedUrl
                       ==> i in LocationsAt(locations, row.feedUrl);
  }

  lemma LocationsChange(env: Env, t: Tables, id: int, row: Location)
    requires Sound(env, t) && LocationsAt(t.locations, row.feedUrl) <= {id} && row.podcastId in t.podcasts
    ensures Sound(env, t.(locations := t.locations[id := row]))
  {
    UrlsStayUnique(t.locations, id, row);
    assert LocationsRefer(t.locations[id := row], t.podcasts);
  }

  lemma OneLocationAt(locations: map<int, Location>, url: string)
    requires UrlsUnique(locations) && LocationsAt(locations, url) != {}
    ensures LocationsAt(locations, url) == {Least(LocationsAt(locations, url))}
  {
  }

  /** The index on feed_url alone is never hit by another podcast, and stays unique. */
  lemma LocationKeeps(env: Env, t: Tables, call: Call, podcastId: int, url: string)
    requires Sound(env, t) && call.newLocationId !in t.locations && podcastId in t.podcasts
    requires LocationsAt(t.locations, url) <= LocationsOf(t.locations, podcastId)
    ensures match LocationUpserted(t, call, podcastId, url)
            case Err(e) => Expected(e)
            case Ok(w) =>
              && w.tables == t.(locations := w.tables.locations)
              && Sound(env, w.tables)
              && w.id in w.tables.locations
              && w.tables.locations[w.id].feedUrl == url
              && w.tables.locations[w.id].podcastId == podcastId
  {
    var at := LocationsAt(t.locations, url);
    assert at * LocationsOf(t.locations, podcastId) == at;
    if at != {} {
      OneLocationAt(t.locations, url);
      var id := Least(at);
      LocationsChange(env, t, id, t.locations[id].(lastRetrievedAt := call.times.locationLast));
    } else {
      var row := Location(url, podcastId, call.times.locationFirst, call.times.locationLast);
      LocationsChange(env, t, call.newLocationId, row);
    }
  }

  lemma PlaceKeeps(env: Env, t: Tables, call: Call, f: Fetched)
    requires Sound(env, t) && Fresh(t, call)
    ensures match Place(t, call, f)
            case Err(e) => Expected(e)
            case Ok(p) =>
              && Sound(env, p.tables)
              && p.podcastId in p.tables.podcasts
              && p.tables == t.(podcasts := p.tables.podcasts, locations := p.tables.locations)
              && p.locationId in p.tables.locations
              && p.tables.locations[p.locationId].feedUrl == f.url
              && p.tables.locations[p.locationId].podcastId == p.podcastId
  {
    PodcastOwnsUrl(env, t, call, f.podcast, f.url);
    var r := PodcastUpserted(t, call, f.podcast, f.url);
    if r.Ok? {
      PodcastsGrow(env, t, r.value.tables.podcasts);
      LocationKeeps(env, r.value.tables, call, r.value.id, f.url);
    }
  }

  // ---- Ingesting the content ----------------------------------------------------------------

  lemma ContentsStayUnique(contents: map<int, Content>, id: int, row: Content)
    requires ContentsUnique(contents) && ContentsAt(contents, row.podcastId, row.hash) <= {id}
    ensures ContentsUnique(contents[id := row])
  {
    assert forall i :: i in contents && contents[i].podcastId == row.podcastId && contents[i].hash == row.hash
                       ==> i in ContentsAt(contents, row.podcastId, row.hash);
  }

  predicate ContentOf(c: Content, podcastId: int, body: Bytes) {
    c.podcastId == podcastId && c.body == body && c.hash == Sha256(body)
  }

  /** Every content but the one for this body is covered. */
  ghost predicate CoveredBut(
    env: Env, contents: map<int, Content>, episodes: map<int, EpisodeRow>, podcastId: int, body: Bytes)
  {
    forall id :: id in contents ==> Covered(env, episodes, contents[id]) || ContentOf(contents[id], podcastId, body)
  }

  /** A content row is written ahead of its episodes. */
  lemma ContentKeeps(env: Env, t: Tables, call: Call, podcastId: int, body: Bytes)
    requires Sound(env, t) && call.newContentId !in t.contents && podcastId in t.podcasts
    ensures match ContentUpserted(env, t, call, podcastId, body)
            case Err(e) => Expected(e)
            case Ok(w) =>
              && w.tables == t.(contents := w.tables.contents)
              && ContentsUnique(w.tables.contents) && ContentsRefer(w.tables.contents, t.podcasts)
              && CoveredBut(env, w.tables.contents, t.episodes, podcastId, body)
  {
    var at := ContentsAt(t.contents, podcastId, Sha256(body));
    if at != {} {
      var id := Least(at);
      assert at <= {id};
      assert Covered(env, t.episodes, t.contents[id]);
      ContentsStayUnique(t.contents, id, t.contents[id].(retrievedAt := call.times.content));
    } else {
      ContentsStayUnique(t.contents, call.newContentId, Content(podcastId, Sha256(body), body, call.times.content));
    }
  }

  lemma CoveredAsEpisodesGrow(env: Env, before: map<int, EpisodeRow>, after: map<int, EpisodeRow>, c: Content)
    requires Covered(env, before, c)
    requires PresentGuids(before, c.podcastId) <= PresentGuids(after, c.podcastId)
    ensures Covered(env, after, c)
  {
  }

  /** The rows a feed converts to have the GUIDs of its body. */
  lemma RowsOfBody(env: Env, body: Bytes, feed: Feed, podcastId: int)
    requires FeedOf(env, body) == Ok(feed)
    ensures match ConvertAll(env, feed.episodes, podcastId)
            case Err(e) => Expected(e) && BodyGuids(env, body).None?
            case Ok(rows) =>
              DistinctGuids(rows) && AllFor(rows, podcastId) && BodyGuids(env, body) == Some(Guids(rows))
  {
    GuidsForAnyPodcast(env.parseDate, feed.episodes, podcastId, 0);
    if Converted(env.parseDate, feed.episodes, podcastId).Ok? {
      KeptGuidsDiffer(env.parseDate, feed.episodes, podcastId);
      RowsAreForPodcast(env.parseDate, feed.episodes, podcastId);
    }
  }

  lemma {:induction false} RowsAreForPodcast(parse: DateParser, raws: seq<RawEpisode>, podcastId: int)
    requires Converted(parse, raws, podcastId).Ok?
    ensures AllFor(Converted(parse, raws, podcastId).value, podcastId)
    decreases |raws|
  {
    if raws != [] {
      RowsAreForPodcast(parse, raws[..|raws| - 1], podcastId);
    }
  }

  /** The episode statement: no row is hit twice, and exactly the GUIDs it is given
      are added. */
  lemma EpisodesKeep(t: Tables, call: Call, rows: seq<EpisodeRow>, podcastId: int)
    requires EpisodesUnique(t.episodes) && EpisodesRefer(t.episodes, t.podcasts)
    requires FreshIds(t.episodes.Keys, call.newEpisodeIds) && podcastId in t.podcasts
    requires DistinctGuids(rows) && AllFor(rows, podcastId)
    ensures match EpisodesUpserted(t, call, rows)
            case Err(e) => Expected(e)
            case Ok(i) =>
              && i.tables == t.(episodes := i.tables.episodes)
              && EpisodesUnique(i.tables.episodes) && EpisodesRefer(i.tables.episodes, t.podcasts)
              && forall p :: PresentGuids(i.tables.episodes, p) ==
                             PresentGuids(t.episodes, p) + if p == podcastId then Guids(rows) else {}
  {
    DistinctRowsNeverCollide(t.episodes, t.podcasts.Keys, rows, call.newEpisodeIds);
    NeverWithoutPodcast(t.episodes, t.podcasts.Keys, rows, call.newEpisodeIds, podcastId);
    if UpsertRows(t.episodes, t.podcasts.Keys, rows, call.newEpisodeIds).Ok? {
      UpsertHoldsRows(t.episodes, t.podcasts.Keys, rows, call.newEpisodeIds);
      forall p {
        UpsertAddsGuids(t.episodes, t.podcasts.Keys, rows, call.newEpisodeIds, podcastId, p);
      }
      UpsertRefers(t.episodes, t.podcasts, rows, call.newEpisodeIds);
    }
  }

  lemma {:induction false} NeverWithoutPodcast(
    episodes: map<int, EpisodeRow>, podcasts: set<int>, rows: seq<EpisodeRow>, newIds: nat -> int, podcastId: int)
    requires podcastId in podcasts && AllFor(rows, podcastId)
    ensures UpsertRows(episodes, podcasts, rows, newIds) != Err(NoPodcast)
    decreases |rows|
  {
    if rows != [] {
      NeverWithoutPodcast(episodes, podcasts, rows[..|rows| - 1], newIds, podcastId);
    }
  }

  lemma {:induction false} UpsertRefers(
    episodes: map<int, EpisodeRow>, podcasts: map<int, Podcast>, rows: seq<EpisodeRow>, newIds: nat -> int)
    requires EpisodesRefer(episodes, podcasts)
    requires UpsertRows(episodes, podcasts.Keys, rows, newIds).Ok?
    ensures EpisodesRefer(UpsertRows(episodes, podcasts.Keys, rows, newIds).value.episodes, podcasts)
    decreases |rows|
  {
    if rows != [] {
      UpsertRefers(episodes, podcasts, rows[..|rows| - 1], newIds);
    }
  }

  /** Everything `Ingest` does to a sound state. */
  lemma IngestKeeps(env: Env, t: Tables, call: Call, podcastId: int, f: Fetched)
    requires Sound(env, t) && podcastId in t.podcasts
    requires call.newContentId !in t.contents && FreshIds(t.episodes.Keys, call.newEpisodeIds)
    requires FeedOf(env, f.body) == Ok(f.feed)
    ensures match Ingest(env, t, call, podcastId, f)
            case Err(e) => Expected(e)
            case Ok(i) =>
              && Sound(env, i.tables) && i.tables.locations == t.locations && i.tables.podcasts == t.podcasts
              && BodyGuids(env, f.body).Some?
              && forall p :: PresentGuids(i.tables.episodes, p) ==
                   PresentGuids(t.episodes, p) + if p == podcastId then BodyGuids(env, f.body).value else {}
  {
    ContentKeeps(env, t, call, podcastId, f.body);
    RowsOfBody(env, f.body, f.feed, podcastId);
    var c := ContentUpserted(env, t, call, podcastId, f.body);
    var converted := ConvertAll(env, f.feed.episodes, podcastId);
    if c.Ok? && converted.Ok? {
      EpisodesKeep(c.value.tables, call, converted.value, podcastId);
      if Ingest(env, t, call, podcastId, f).Ok? {
        IngestCovers(env, t, call, podcastId, f, c.value.tables, converted.value);
      }
    }
  }

  lemma IngestCovers(
    env: Env, t: Tables, call: Call, podcastId: int, f: Fetched, t1: Tables, rows: seq<EpisodeRow>)
    requires Sound(env, t)
    requires t1 == t.(contents := t1.contents) && ContentsUnique(t1.contents) && ContentsRefer(t1.contents, t1.podcasts)
    requires CoveredBut(env, t1.contents, t.episodes, podcastId, f.body)
    requires BodyGuids(env, f.body) == Some(Guids(rows))
    requires EpisodesUpserted(t1, call, rows).Ok?
    requires var e := EpisodesUpserted(t1, call, rows).value.tables;
             && e == t1.(episodes := e.episodes)
             && EpisodesUnique(e.episodes) && EpisodesRefer(e.episodes, t1.podcasts)
             && forall p :: PresentGuids(e.episodes, p) ==
                            PresentGuids(t1.episodes, p) + if p == podcastId then Guids(rows) else {}
    requires ExceptionDeleted(EpisodesUpserted(t1, call, rows).value.tables, call, podcastId).Ok?
    ensures Sound(env, ExceptionDeleted(EpisodesUpserted(t1, call, rows).value.tables, call, podcastId).value)
  {
    var e := EpisodesUpserted(t1, call, rows).value.tables;
    forall id | id in e.contents
      ensures Covered(env, e.episodes, e.contents[id])
    {
      if Covered(env, t.episodes, e.contents[id]) {
        CoveredAsEpisodesGrow(env, t.episodes, e.episodes, e.contents[id]);
      }
    }
  }

  // ---- Whole runs -----------------------------------------------------------------------------

  lemma FetchedIsRead(env: Env, locations: map<int, Location>, call: Call)
    ensures match Fetch(env, locations, call)
            case Err(e) => Expected(e)
            case Ok(f) => FeedOf(env, f.body) == Ok(f.feed)
  {
  }

  /** The content counted as already processed is covered already. */
  lemma ShortcutIsCovered(env: Env, t: Tables, podcastId: int, body: Bytes)
    requires Sound(env, t) && |ContentsAt(t.contents, podcastId, Sha256(body))| > 0
    ensures BodyGuids(env, body).Some? && BodyGuids(env, body).value <= PresentGuids(t.episodes, podcastId)
  {
    var id := PickOne(ContentsAt(t.contents, podcastId, Sha256(body)));
    assert Covered(env, t.episodes, t.contents[id]);
  }

  lemma FinishKeeps(env: Env, p: Placed, call: Call, f: Fetched)
    requires Sound(env, p.tables) && p.podcastId in p.tables.podcasts
    requires call.newContentId !in p.tables.contents && FreshIds(p.tables.episodes.Keys, call.newEpisodeIds)
    requires FeedOf(env, f.body) == Ok(f.feed)
    ensures match Finish(env, p, call, f)
            case Err(e) => Expected(e)
            case Ok(d) =>
              && Sound(env, d.tables) && d.result.podcastId == p.podcastId && d.result.locationId == p.locationId
              && d.tables.locations == p.tables.locations && d.tables.podcasts == p.tables.podcasts
              && BodyGuids(env, f.body).Some?
              && forall q :: PresentGuids(d.tables.episodes, q) ==
                   PresentGuids(p.tables.episodes, q) + if q == p.podcastId then BodyGuids(env, f.body).value else {}
  {
    IngestKeeps(env, p.tables, call, p.podcastId, f);
    if |ContentsAt(p.tables.contents, p.podcastId, Sha256(f.body))| > 0 {
      ShortcutIsCovered(env, p.tables, p.podcastId, f.body);
    }
  }

  /** Main result: a run that succeeds, short-circuited or not, leaves for its
      podcast exactly the GUIDs stored before and the ones of the body fetched,
      and for every other podcast what was there. */
  lemma SuccessStoresTheGuids(env: Env, t: Tables, call: Call)
    requires Sound(env, t) && Fresh(t, call) && RunOutcome(env, t, call).result.Ok?
    ensures Fetch(env, t.locations, call).Ok?
    ensures Place(t, call, Fetch(env, t.locations, call).value).Ok?
    ensures RunOutcome(env, t, call).result.value.podcastId ==
            Place(t, call, Fetch(env, t.locations, call).value).value.podcastId
    ensures var out := RunOutcome(env, t, call);
            var guids := BodyGuids(env, Fetch(env, t.locations, call).value.body);
            && guids.Some?
            && forall p :: PresentGuids(out.tables.episodes, p) ==
                 PresentGuids(t.episodes, p) + if p == out.result.value.podcastId then guids.value else {}
  {
    FetchedIsRead(env, t.locations, call);
    var f := Fetch(env, t.locations, call).value;
    PlaceKeeps(env, t, call, f);
    FinishKeeps(env, Place(t, call, f).value, call, f);
  }

  /** The recovery changes two rows of one podcast. */
  lemma RecoveryKeeps(env: Env, t: Tables, call: Call, e: UpdateError)
    requires Sound(env, t)
    ensures Sound(env, Recovered(env, t, call, e))
  {
    var t' := Recovered(env, t, call, e);
    if t' != t {
      PodcastsGrow(env, t, t'.podcasts);
    }
  }

  /** Main result: every run keeps the state sound, and no run is stopped by a unique
      index, by an episode hit twice, or by a missing row. */
  lemma RunKeepsSound(env: Env, t: Tables, call: Call)
    requires Sound(env, t) && Fresh(t, call)
    ensures Sound(env, RunOutcome(env, t, call).tables)
    ensures RunOutcome(env, t, call).result.Err? ==> Expected(RunOutcome(env, t, call).result.error)
  {
    FetchedIsRead(env, t.locations, call);
    var f := Fetch(env, t.locations, call);
    if f.Ok? {
      PlaceKeeps(env, t, call, f.value);
      var p := Place(t, call, f.value);
      if p.Ok? {
        FinishKeeps(env, p.value, call, f.value);
      }
    }
    var r := Transacted(env, t, call);
    if r.Err? {
      RecoveryKeeps(env, t, call, r.error);
    }
  }

  lemma SomeOrNone(s: set<int>)
    ensures |s| > 0 <==> s != {}
  {
  }

  // ---- Histories ---------------------------------------------------------------------------------

  /** A run of the updater, or a deletion of content rows by the cleaner. */
  datatype Event = Update(call: Call) | CleanContents(ids: set<int>)

  function Next(env: Env, t: Tables, event: Event): Tables {
    match event
    case Update(call) => RunOutcome(env, t, call).tables
    case CleanContents(ids) => t.(contents := t.contents - ids)
  }

  function After(env: Env, t: Tables, events: seq<Event>): Tables
    decreases |events|
  {
    if events == [] then t else After(env, Next(env, t, events[0]), events[1..])
  }

  ghost predicate AllFresh(env: Env, t: Tables, events: seq<Event>)
    decreases |events|
  {
    events != [] ==>
      && (events[0].Update? ==> Fresh(t, events[0].call))
      && AllFresh(env, Next(env, t, events[0]), events[1..])
  }

  /** Main result: over every history of runs, successful, failed or short-circuited,
      and of content clean-ups, every stored content has all its GUIDs present,
      every URL has one owner, and every reference is to a row that exists. */
  lemma {:induction false} HistoryKeepsSound(env: Env, t: Tables, events: seq<Event>)
    requires Sound(env, t) && AllFresh(env, t, events)
    ensures Sound(env, After(env, t, events))
    decreases |events|
  {
    if events != [] {
      match events[0] {
        case Update(call) => RunKeepsSound(env, t, call);
        case CleanContents(_) =>
      }
      HistoryKeepsSound(env, Next(env, t, events[0]), events[1..]);
    }
  }

  // ---- Failed runs ----------------------------------------------------------------------------

  predicate SameButTime(a: Podcast, b: Podcast) {
    a.(lastRetrievedAt := 0) == b.(lastRetrievedAt := 0)
  }

  /** Nothing but the retrieval time and the exception of one podcast differs. */
  ghost predicate OnlyRowsOf(before: Tables, after: Tables, podcastId: int) {
    && after == before.(podcasts := after.podcasts, podcastExceptions := after.podcastExceptions)
    && after.podcasts.Keys == before.podcasts.Keys
    && (forall id :: id in before.podcasts ==>
          SameButTime(before.podcasts[id], after.podcasts[id])
          && (id != podcastId ==> before.podcasts[id] == after.podcasts[id]))
    && after.podcastExceptions - {podcastId} == before.podcastExceptions - {podcastId}
  }

  predicate RecoveryFault(call: Call) {
    || BeginRecovery in call.faults || QueryOwner in call.faults || TouchPodcast in call.faults
    || WriteException in call.faults || CommitRecovery in call.faults
  }

  /** Main result: whichever step fails, a failed run changes at most the two rows
      of the podcast owning the given URL, and nothing when nobody owns it or when
      the recovery fails too. Otherwise both rows carry this run's clock, and the
      exception its error. */
  lemma FailureIsContained(env: Env, t: Tables, call: Call)
    requires Sound(env, t) && RunOutcome(env, t, call).result.Err?
    ensures var out := RunOutcome(env, t, call);
            match QueryPodcast(t.locations, call.feedUrl)
            case None => out.tables == t
            case Some(owner) =>
              && owner in t.podcasts && OnlyRowsOf(t, out.tables, owner)
              && (RecoveryFault(call) ==> out.tables == t)
              && (!RecoveryFault(call) ==>
                    && out.tables.podcasts[owner].lastRetrievedAt == call.times.touched
                    && owner in out.tables.podcastExceptions
                    && out.tables.podcastExceptions[owner] ==
                       ExceptionRow(env.errorStrings(out.result.error), call.times.exception))
  {
    var e := RunOutcome(env, t, call).result.error;
    RecoveryIsOneOf(env, t, call, e);
    var owner := QueryPodcast(t.locations, call.feedUrl);
    if owner.Some? {
      OwnerRecordedTouchesOwner(env, t, call, owner.value, e);
    }
  }

  /** The two rows of the owner, as a recovery that succeeds writes them. */
  function OwnerRecorded(env: Env, t: Tables, call: Call, owner: int, e: UpdateError): Tables
    requires owner in t.podcasts
  {
    var row := t.podcasts[owner].(lastRetrievedAt := call.times.touched);
    t.(podcasts := t.podcasts[owner := row],
       podcastExceptions := t.podcastExceptions[owner := ExceptionRow(env.errorStrings(e), call.times.exception)])
  }

  lemma OwnerRecordedTouchesOwner(env: Env, t: Tables, call: Call, owner: int, e: UpdateError)
    requires owner in t.podcasts
    ensures OnlyRowsOf(t, OwnerRecorded(env, t, call, owner, e), owner)
  {
    var after := OwnerRecorded(env, t, call, owner, e);
    assert after.podcastExceptions - {owner} == t.podcastExceptions - {owner};
  }

  lemma RecoveryIsOneOf(env: Env, t: Tables, call: Call, e: UpdateError)
    requires Sound(env, t)
    ensures match QueryPodcast(t.locations, call.feedUrl)
            case None => Recovered(env, t, call, e) == t
            case Some(owner) =>
              && owner in t.podcasts
              && Recovered(env, t, call, e) == if RecoveryFault(call) then t else OwnerRecorded(env, t, call, owner, e)
  {
  }
}
