/** Updating one podcast from its feed: a transaction over the podcast's tables,
    and the recovery transaction that follows when it fails. Every statement is a
    function from the tables to the tables it leaves or the error it stops with;
    the `Mediator` runs the statements one after another on a connection. */
module PodcastUpdater {
  import opened Wrappers
  import opened Collections
  import opened FeedParser
  import opened EpisodeConversion
  import opened EpisodeUpsert
  import opened Schema

  /** Every exchange with the database, those of the mediator around this one
      included. Any of them may fail. */
  datatype Statement =
    | Begin | QueryGivenUrl | SelectLatest | QueryFinalUrl | WritePodcast | WriteLocation | CountContents
    | WriteContent | WriteEpisodes | RemoveException | Commit
    | BeginRecovery | QueryOwner | TouchPodcast | WriteException | CommitRecovery
    | BeginOuter | SaveDirectoryPodcast | RemoveDirectoryException | WriteDirectoryException | CommitOuter

  datatype UpdateError =
    | Unavailable(statement: Statement)
    | FetchFailed
    | BadStatus(status: int)
    | NotUtf8
    | BadFeed(cause: Error)
    | MissingTitle
    | BadEpisode(date: BadDate)
    | CheckViolated
    | MissingRow
    | UrlTaken
    | VendorTaken
    | EpisodeTwice

  datatype Response = Response(status: int, body: Bytes, finalUrl: string)

  /** Foreign functions: UTF-8 decoding, the XML tokenizer, text clean-up, dates,
      the size gzip brings a body down to, and how an error is written down. */
  datatype Env = Env(
    decode: Bytes -> Option<string>,
    tokenize: string -> seq<Xml.Event>,
    rules: TextRules,
    parseDate: DateParser,
    gzipLength: Bytes -> nat,
    errorStrings: UpdateError -> seq<string>)

  /** The readings of the clock a run takes, in order. */
  datatype Times = Times(
    podcast: int, locationFirst: int, locationLast: int, content: int, touched: int, exception: int,
    directoryException: int)

  /** One invocation: its arguments, what the network answers, which statements
      fail, and what the clock and the id sequences give. */
  datatype Call = Call(
    feedUrl: string,
    disableShortcut: bool,
    fetch: string -> Option<Response>,
    faults: set<Statement>,
    times: Times,
    newPodcastId: int,
    newLocationId: int,
    newContentId: int,
    newEpisodeIds: nat -> int)

  datatype RunResult = RunResult(podcastId: int, locationId: int, episodes: Option<seq<int>>)

  datatype Outcome = Outcome(tables: Tables, result: Result<RunResult, UpdateError>)

  const OK_STATUS := 200

  function Attempt(call: Call, statement: Statement): Result<(), UpdateError> {
    if statement in call.faults then Err(Unavailable(statement)) else Ok(())
  }

  // ---- Fetching and reading, which write nothing -----------------------------------

  function QueryPodcast(locations: map<int, Location>, url: string): Option<int> {
    var at := LocationsAt(locations, url);
    if at == {} then None else Some(locations[Least(at)].podcastId)
  }

  /** The locations of a podcast that `ORDER BY last_retrieved_at DESC` may put first. */
  function Newest(locations: map<int, Location>, podcastId: int): set<int> {
    set id | id in LocationsOf(locations, podcastId)
             && forall other <- LocationsOf(locations, podcastId) ::
                  locations[other].lastRetrievedAt <= locations[id].lastRetrievedAt
  }

  function LatestUrlOf(locations: map<int, Location>, podcastId: int, otherwise: string): string {
    var newest := Newest(locations, podcastId);
    if newest == {} then otherwise else locations[Least(newest)].feedUrl
  }

  function SelectLatestUrl(locations: map<int, Location>, call: Call): Result<string, UpdateError> {
    var _ :- Attempt(call, QueryGivenUrl);
    match QueryPodcast(locations, call.feedUrl)
    case None => Ok(call.feedUrl)
    case Some(podcastId) =>
      var _ :- Attempt(call, SelectLatest);
      Ok(LatestUrlOf(locations, podcastId, call.feedUrl))
  }

  function FetchFeed(call: Call, url: string): Result<Response, UpdateError> {
    match call.fetch(url)
    case None => Err(FetchFailed)
    case Some(response) => if response.status != OK_STATUS then Err(BadStatus(response.status)) else Ok(response)
  }

  function FeedOf(env: Env, body: Bytes): Result<Feed, UpdateError> {
    match env.decode(body)
    case None => Err(NotUtf8)
    case Some(text) =>
      match FeedFrom(env.rules, env.tokenize(text))
      case Err(e) => Err(BadFeed(e))
      case Ok(feed) => Ok(feed)
  }

  function ConvertPodcast(raw: RawPodcast, now: int): Result<Podcast, UpdateError> {
    if raw.title.None? then Err(MissingTitle)
    else Ok(Podcast(raw.imageUrl, raw.language, now, raw.linkUrl, raw.title.value, raw.description))
  }

  /** A feed that has been fetched, read and found to have a title. */
  datatype Fetched = Fetched(url: string, body: Bytes, feed: Feed, podcast: Podcast)

  function Fetch(env: Env, locations: map<int, Location>, call: Call): Result<Fetched, UpdateError> {
    var latest :- SelectLatestUrl(locations, call);
    var response :- FetchFeed(call, latest);
    var feed :- FeedOf(env, response.body);
    var podcast :- ConvertPodcast(feed.podcast, call.times.podcast);
    Ok(Fetched(response.finalUrl, response.body, feed, podcast))
  }

  // ---- Statements that write ---------------------------------------------------------

  /** The tables a statement leaves and the id of the row it wrote. */
  datatype Written = Written(tables: Tables, id: int)

  function PodcastUpserted(t: Tables, call: Call, row: Podcast, url: string): Result<Written, UpdateError> {
    var _ :- Attempt(call, QueryFinalUrl);
    var _ :- Attempt(call, WritePodcast);
    match QueryPodcast(t.locations, url)
    case Some(id) =>
      if id !in t.podcasts then Err(MissingRow)
      else if !PodcastFits(row) then Err(CheckViolated)
      else Ok(Written(t.(podcasts := t.podcasts[id := row]), id))
    case None =>
      if !PodcastFits(row) then Err(CheckViolated)
      else Ok(Written(t.(podcasts := t.podcasts[call.newPodcastId := row]), call.newPodcastId))
  }

  /** On conflict of (podcast_id, feed_url) only the retrieval time moves. The index
      on feed_url alone is not the conflict target, so it stops the statement. */
  function LocationUpserted(t: Tables, call: Call, podcastId: int, url: string): Result<Written, UpdateError> {
    var _ :- Attempt(call, WriteLocation);
    var at := LocationsAt(t.locations, url) * LocationsOf(t.locations, podcastId);
    if |url| > URL_LIMIT then Err(CheckViolated)
    else if at != {} then
      var id := Least(at);
      var row := t.locations[id].(lastRetrievedAt := call.times.locationLast);
      Ok(Written(t.(locations := t.locations[id := row]), id))
    else if LocationsAt(t.locations, url) != {} then Err(UrlTaken)
    else if podcastId !in t.podcasts then Err(MissingRow)
    else
      var row := Location(url, podcastId, call.times.locationFirst, call.times.locationLast);
      Ok(Written(t.(locations := t.locations[call.newLocationId := row]), call.newLocationId))
  }

  function ContentUpserted(env: Env, t: Tables, call: Call, podcastId: int, body: Bytes): Result<Written, UpdateError> {
    var _ :- Attempt(call, WriteContent);
    var at := ContentsAt(t.contents, podcastId, Sha256(body));
    if env.gzipLength(body) > CONTENT_LIMIT then Err(CheckViolated)
    else if at != {} then
      var id := Least(at);
      var row := t.contents[id].(retrievedAt := call.times.content);
      Ok(Written(t.(contents := t.contents[id := row]), id))
    else if podcastId !in t.podcasts then Err(MissingRow)
    else
      var row := Content(podcastId, Sha256(body), body, call.times.content);
      Ok(Written(t.(contents := t.contents[call.newContentId := row]), call.newContentId))
  }

  function ConvertAll(env: Env, raws: seq<RawEpisode>, podcastId: int): Result<seq<EpisodeRow>, UpdateError> {
    match Converted(env.parseDate, raws, podcastId)
    case Err(e) => Err(BadEpisode(e))
    case Ok(rows) => Ok(rows)
  }

  function FaultError(f: EpisodeFault): UpdateError {
    match f
    case TooLong => CheckViolated
    case NoPodcast => MissingRow
    case RowTwice => EpisodeTwice
  }

  /** The tables after the episodes, and the ids in the order of the rows. */
  datatype Ingested = Ingested(tables: Tables, ids: seq<int>)

  function EpisodesUpserted(t: Tables, call: Call, rows: seq<EpisodeRow>): Result<Ingested, UpdateError> {
    var _ :- Attempt(call, WriteEpisodes);
    match UpsertRows(t.episodes, t.podcasts.Keys, rows, call.newEpisodeIds)
    case Err(f) => Err(FaultError(f))
    case Ok(u) => Ok(Ingested(t.(episodes := u.episodes), u.written))
  }

  function ExceptionDeleted(t: Tables, call: Call, podcastId: int): Result<Tables, UpdateError> {
    var _ :- Attempt(call, RemoveException);
    Ok(t.(podcastExceptions := t.podcastExceptions - {podcastId}))
  }

  // ---- The transaction ------------------------------------------------------------------

  datatype Placed = Placed(tables: Tables, podcastId: int, locationId: int)

  function Place(t: Tables, call: Call, f: Fetched): Result<Placed, UpdateError> {
    var p :- PodcastUpserted(t, call, f.podcast, f.url);
    var l :- LocationUpserted(p.tables, call, p.id, f.url);
    Ok(Placed(l.tables, p.id, l.id))
  }

  function AlreadyProcessed(t: Tables, call: Call, podcastId: int, body: Bytes): Result<bool, UpdateError> {
    var _ :- Attempt(call, CountContents);
    Ok(|ContentsAt(t.contents, podcastId, Sha256(body))| > 0)
  }

  function Ingest(env: Env, t: Tables, call: Call, podcastId: int, f: Fetched): Result<Ingested, UpdateError> {
    var c :- ContentUpserted(env, t, call, podcastId, f.body);
    var rows :- ConvertAll(env, f.feed.episodes, podcastId);
    var e :- EpisodesUpserted(c.tables, call, rows);
    var t' :- ExceptionDeleted(e.tables, call, podcastId);
    Ok(Ingested(t', e.ids))
  }

  datatype Finished = Finished(tables: Tables, result: RunResult)

  function Finish(env: Env, p: Placed, call: Call, f: Fetched): Result<Finished, UpdateError> {
    var done :- if call.disableShortcut then Ok(false) else AlreadyProcessed(p.tables, call, p.podcastId, f.body);
    if done then Ok(Finished(p.tables, RunResult(p.podcastId, p.locationId, None)))
    else
      var i :- Ingest(env, p.tables, call, p.podcastId, f);
      Ok(Finished(i.tables, RunResult(p.podcastId, p.locationId, Some(i.ids))))
  }

  function Updated(env: Env, t: Tables, call: Call): Result<Finished, UpdateError> {
    var f :- Fetch(env, t.locations, call);
    var p :- Place(t, call, f);
    Finish(env, p, call, f)
  }

  function Transacted(env: Env, t: Tables, call: Call): Result<Finished, UpdateError> {
    var _ :- Attempt(call, Begin);
    var finished :- Updated(env, t, call);
    var _ :- Attempt(call, Commit);
    Ok(finished)
  }

  // ---- The recovery -----------------------------------------------------------------------

  function Touched(t: Tables, call: Call, podcastId: int): Result<Tables, UpdateError> {
    var _ :- Attempt(call, TouchPodcast);
    if podcastId !in t.podcasts then Ok(t)
    else
      var row := t.podcasts[podcastId].(lastRetrievedAt := call.times.touched);
      Ok(t.(podcasts := t.podcasts[podcastId := row]))
  }

  function ExceptionUpserted(
    env: Env, t: Tables, call: Call, podcastId: int, e: UpdateError
  ): Result<Tables, UpdateError> {
    var _ :- Attempt(call, WriteException);
    if podcastId !in t.podcasts then Err(MissingRow)
    else
      var row := ExceptionRow(env.errorStrings(e), call.times.exception);
      Ok(t.(podcastExceptions := t.podcastExceptions[podcastId := row]))
  }

  function RecoveryWritten(env: Env, t: Tables, call: Call, e: UpdateError): Result<Tables, UpdateError> {
    var _ :- Attempt(call, QueryOwner);
    match QueryPodcast(t.locations, call.feedUrl)
    case None => Ok(t)
    case Some(podcastId) =>
      var t1 :- Touched(t, call, podcastId);
      ExceptionUpserted(env, t1, call, podcastId, e)
  }

  function RecoveryTransacted(env: Env, t: Tables, call: Call, e: UpdateError): Result<Tables, UpdateError> {
    var _ :- Attempt(call, BeginRecovery);
    var t' :- RecoveryWritten(env, t, call, e);
    var _ :- Attempt(call, CommitRecovery);
    Ok(t')
  }

  /** An error of the recovery itself is printed and forgotten. */
  function Recovered(env: Env, t: Tables, call: Call, e: UpdateError): Tables {
    match RecoveryTransacted(env, t, call, e)
    case Ok(t') => t'
    case Err(_) => t
  }

  function RunOutcome(env: Env, t: Tables, call: Call): Outcome {
    match Transacted(env, t, call)
    case Ok(finished) => Outcome(finished.tables, Ok(finished.result))
    case Err(e) => Outcome(Recovered(env, t, call, e), Err(e))
  }

  // ---- The mediator -----------------------------------------------------------------------

  /** A statement method writes what its specification says, or nothing. */
  ghost predicate Wrote<T>(
    before: Tables, after: Tables, r: Result<T, UpdateError>, spec: Result<Tables, UpdateError>)
  {
    match spec
    case Ok(t) => r.Ok? && after == t
    case Err(e) => r == Err(e) && after == before
  }

  ghost predicate WroteRow(
    before: Tables, after: Tables, r: Result<int, UpdateError>, spec: Result<Written, UpdateError>)
  {
    match spec
    case Ok(w) => r == Ok(w.id) && after == w.tables
    case Err(e) => r == Err(e) && after == before
  }

  class Mediator {
    const conn: Connection
    const env: Env
    const call: Call

    constructor (conn: Connection, env: Env, call: Call)
      ensures this.conn == conn && this.env == env && this.call == call
    {
      this.conn, this.env, this.call := conn, env, call;
    }

    method UpsertPodcast(row: Podcast, url: string) returns (r: Result<int, UpdateError>)
      modifies conn
      ensures WroteRow(old(conn.tables), conn.tables, r, PodcastUpserted(old(conn.tables), call, row, url))
    {
      var _ :- Attempt(call, QueryFinalUrl);
      var podcastId := QueryPodcast(conn.tables.locations, url);
      var _ :- Attempt(call, WritePodcast);
      if podcastId.Some? && podcastId.value !in conn.tables.podcasts {
        return Err(MissingRow);
      }
      if !PodcastFits(row) {
        return Err(CheckViolated);
      }
      var id := if podcastId.Some? then podcastId.value else call.newPodcastId;
      conn.tables := conn.tables.(podcasts := conn.tables.podcasts[id := row]);
      return Ok(id);
    }

    method UpsertPodcastFeedLocation(podcastId: int, url: string) returns (r: Result<int, UpdateError>)
      modifies conn
      ensures WroteRow(old(conn.tables), conn.tables, r, LocationUpserted(old(conn.tables), call, podcastId, url))
    {
      var _ :- Attempt(call, WriteLocation);
      if |url| > URL_LIMIT {
        return Err(CheckViolated);
      }
      var locations := conn.tables.locations;
      var at := LocationsAt(locations, url) * LocationsOf(locations, podcastId);
      if at != {} {
        var id := Least(at);
        var row := locations[id].(lastRetrievedAt := call.times.locationLast);
        conn.tables := conn.tables.(locations := locations[id := row]);
        return Ok(id);
      }
      if LocationsAt(locations, url) != {} {
        return Err(UrlTaken);
      }
      if podcastId !in conn.tables.podcasts {
        return Err(MissingRow);
      }
      var row := Location(url, podcastId, call.times.locationFirst, call.times.locationLast);
      conn.tables := conn.tables.(locations := locations[call.newLocationId := row]);
      return Ok(call.newLocationId);
    }

    method UpsertPodcastFeedContent(podcastId: int, body: Bytes) returns (r: Result<int, UpdateError>)
      modifies conn
      ensures WroteRow(old(conn.tables), conn.tables, r, ContentUpserted(env, old(conn.tables), call, podcastId, body))
    {
      var _ :- Attempt(call, WriteContent);
      if env.gzipLength(body) > CONTENT_LIMIT {
        return Err(CheckViolated);
      }
      var contents := conn.tables.contents;
      var at := ContentsAt(contents, podcastId, Sha256(body));
      if at != {} {
        var id := Least(at);
        conn.tables := conn.tables.(contents := contents[id := contents[id].(retrievedAt := call.times.content)]);
        return Ok(id);
      }
      if podcastId !in conn.tables.podcasts {
        return Err(MissingRow);
      }
      var row := Content(podcastId, Sha256(body), body, call.times.content);
      conn.tables := conn.tables.(contents := contents[call.newContentId := row]);
      return Ok(call.newContentId);
    }

    method UpsertEpisodes(rows: seq<EpisodeRow>) returns (r: Result<seq<int>, UpdateError>)
      modifies conn
      ensures match EpisodesUpserted(old(conn.tables), call, rows)
              case Ok(i) => r == Ok(i.ids) && conn.tables == i.tables
              case Err(e) => r == Err(e) && conn.tables == old(conn.tables)
      ensures r.Ok? && EpisodesUnique(old(conn.tables.episodes))
              && FreshIds(old(conn.tables.episodes).Keys, call.newEpisodeIds) ==>
                && EpisodesUnique(conn.tables.episodes)
                && Holds(Upserted(conn.tables.episodes, r.value), rows)
                && KeysKept(old(conn.tables.episodes), conn.tables.episodes)
    {
      ghost var episodes := conn.tables.episodes;
      var _ :- Attempt(call, WriteEpisodes);
      match UpsertRows(conn.tables.episodes, conn.tables.podcasts.Keys, rows, call.newEpisodeIds) {
        case Err(f) => return Err(FaultError(f));
        case Ok(u) =>
          if EpisodesUnique(episodes) && FreshIds(episodes.Keys, call.newEpisodeIds) {
            UpsertHoldsRows(episodes, conn.tables.podcasts.Keys, rows, call.newEpisodeIds);
          }
          conn.tables := conn.tables.(episodes := u.episodes);
          return Ok(u.written);
      }
    }

    method DeleteException(podcastId: int) returns (r: Result<(), UpdateError>)
      modifies conn
      ensures Wrote(old(conn.tables), conn.tables, r, ExceptionDeleted(old(conn.tables), call, podcastId))
    {
      var _ :- Attempt(call, RemoveException);
      conn.tables := conn.tables.(podcastExceptions := conn.tables.podcastExceptions - {podcastId});
      return Ok(());
    }

    method ReadFeed(body: Bytes) returns (r: Result<Feed, UpdateError>)
      ensures r == FeedOf(env, body)
    {
      var text := env.decode(body);
      if text.None? {
        return Err(NotUtf8);
      }
      var parsed := ParseFeed(env.rules, env.tokenize(text.value));
      match parsed {
        case Err(e) => return Err(BadFeed(e));
        case Ok(feed) => return Ok(feed);
      }
    }

    method ConvertEpisodes(raws: seq<RawEpisode>, podcastId: int) returns (r: Result<seq<EpisodeRow>, UpdateError>)
      ensures r == ConvertAll(env, raws, podcastId)
    {
      var converted := EpisodeConversion.ConvertEpisodes(env.parseDate, raws, podcastId);
      match converted {
        case Err(e) => return Err(BadEpisode(e));
        case Ok(rows) => return Ok(rows);
      }
    }

    /** The tables an error leaves behind are rolled back by the caller. */
    method RunInner() returns (r: Result<RunResult, UpdateError>)
      modifies conn
      ensures match Updated(env, old(conn.tables), call)
              case Ok(finished) => r == Ok(finished.result) && conn.tables == finished.tables
              case Err(e) => r == Err(e)
    {
      var latest :- SelectLatestUrl(conn.tables.locations, call);
      var response :- FetchFeed(call, latest);
      var body, finalUrl := response.body, response.finalUrl;
      var feed :- ReadFeed(body);
      var row :- ConvertPodcast(feed.podcast, call.times.podcast);
      var podcastId :- UpsertPodcast(row, finalUrl);
      var locationId :- UpsertPodcastFeedLocation(podcastId, finalUrl);
      if !call.disableShortcut {
        var done :- AlreadyProcessed(conn.tables, call, podcastId, body);
        if done {
          return Ok(RunResult(podcastId, locationId, None));
        }
      }
      var _ :- UpsertPodcastFeedContent(podcastId, body);
      var rows :- ConvertEpisodes(feed.episodes, podcastId);
      var ids :- UpsertEpisodes(rows);
      var _ :- DeleteException(podcastId);
      return Ok(RunResult(podcastId, locationId, Some(ids)));
    }

    method UpdatePodcastLastRetrievedAt(podcastId: int) returns (r: Result<(), UpdateError>)
      modifies conn
      ensures Wrote(old(conn.tables), conn.tables, r, Touched(old(conn.tables), call, podcastId))
    {
      var _ :- Attempt(call, TouchPodcast);
      if podcastId in conn.tables.podcasts {
        var row := conn.tables.podcasts[podcastId].(lastRetrievedAt := call.times.touched);
        conn.tables := conn.tables.(podcasts := conn.tables.podcasts[podcastId := row]);
      }
      return Ok(());
    }

    method UpsertException(podcastId: int, e: UpdateError) returns (r: Result<(), UpdateError>)
      modifies conn
      ensures Wrote(old(conn.tables), conn.tables, r, ExceptionUpserted(env, old(conn.tables), call, podcastId, e))
    {
      var _ :- Attempt(call, WriteException);
      if podcastId !in conn.tables.podcasts {
        return Err(MissingRow);
      }
      var row := ExceptionRow(env.errorStrings(e), call.times.exception);
      conn.tables := conn.tables.(podcastExceptions := conn.tables.podcastExceptions[podcastId := row]);
      return Ok(());
    }

    method RecoverInner(e: UpdateError) returns (r: Result<(), UpdateError>)
      modifies conn
      ensures match RecoveryWritten(env, old(conn.tables), call, e)
              case Ok(t) => r.Ok? && conn.tables == t
              case Err(inner) => r == Err(inner)
    {
      var _ :- Attempt(call, QueryOwner);
      var owner := QueryPodcast(conn.tables.locations, call.feedUrl);
      if owner.Some? {
        var _ :- UpdatePodcastLastRetrievedAt(owner.value);
        var _ :- UpsertException(owner.value, e);
      }
      return Ok(());
    }

    method RunRecovery(e: UpdateError)
      modifies conn
      ensures conn.tables == Recovered(env, old(conn.tables), call, e)
    {
      var snapshot := conn.tables;
      if BeginRecovery !in call.faults {
        var r := RecoverInner(e);
        if r.Err? || CommitRecovery in call.faults {
          conn.tables := snapshot;
        }
      }
    }

    method Run() returns (r: Result<RunResult, UpdateError>)
      modifies conn
      ensures RunOutcome(env, old(conn.tables), call) == Outcome(conn.tables, r)
    {
      var snapshot := conn.tables;
      r := Err(Unavailable(Begin));
      if Begin !in call.faults {
        r := RunInner();
        if r.Ok? && Commit in call.faults {
          r := Err(Unavailable(Commit));
        }
      }
      if r.Err? {
        conn.tables := snapshot;
        RunRecovery(r.error);
      }
    }
  }
}
