/** Hydrating a directory podcast: the podcast updater runs inside an outer
    transaction, its own two transactions becoming savepoints. */
module DirectoryPodcastUpdater {
  import opened Wrappers
  import opened Collections
  import opened FeedParser
  import opened Schema
  import opened PodcastSuccess
  import opened PodcastUpdater
  import Runs = PodcastRuns

  // ---- Statements ------------------------------------------------------------------------

  /** Every column of the row is saved. */
  function DirectoryPodcastSaved(t: Tables, call: Call, id: int, row: DirectoryPodcast): Result<Tables, UpdateError> {
    var _ :- Attempt(call, SaveDirectoryPodcast);
    if id !in t.directoryPodcasts then Err(MissingRow)
    else if !DirectoryPodcastFits(row) then Err(CheckViolated)
    else if VendorsAt(t.directoryPodcasts, row.directoryId, row.vendorId) - {id} != {} then Err(VendorTaken)
    else if row.podcastId.Some? && row.podcastId.value !in t.podcasts then Err(MissingRow)
    else Ok(t.(directoryPodcasts := t.directoryPodcasts[id := row]))
  }

  function DirectoryExceptionDeleted(t: Tables, call: Call, id: int): Result<Tables, UpdateError> {
    var _ :- Attempt(call, RemoveDirectoryException);
    Ok(t.(directoryExceptions := t.directoryExceptions - {id}))
  }

  function DirectoryExceptionUpserted(
    env: Env, t: Tables, call: Call, id: int, e: UpdateError
  ): Result<Tables, UpdateError> {
    var _ :- Attempt(call, WriteDirectoryException);
    if id !in t.directoryPodcasts then Err(MissingRow)
    else
      var row := ExceptionRow(env.errorStrings(e), call.times.directoryException);
      Ok(t.(directoryExceptions := t.directoryExceptions[id := row]))
  }

  // ---- The run ------------------------------------------------------------------------------

  /** The tables, the caller's copy of the row, and the podcast or the error. */
  datatype Hydration = Hydration(tables: Tables, row: DirectoryPodcast, result: Result<int, UpdateError>)

  /** The updater always runs with the shortcut, on the row's URL. */
  function InnerCall(call: Call, row: DirectoryPodcast): Call {
    call.(feedUrl := row.feedUrl, disableShortcut := false)
  }

  /** What is in place when the outer transaction is about to end. */
  function HydrationInner(env: Env, t: Tables, call: Call, id: int, row: DirectoryPodcast): Hydration {
    var inner := RunOutcome(env, t, InnerCall(call, row));
    match inner.result
    case Ok(res) =>
      var linked := row.(podcastId := Some(res.podcastId));
      (match DirectoryPodcastSaved(inner.tables, call, id, linked)
       case Err(e) => Hydration(inner.tables, linked, Err(e))
       case Ok(saved) =>
         match DirectoryExceptionDeleted(saved, call, id)
         case Err(e) => Hydration(saved, linked, Err(e))
         case Ok(cleared) => Hydration(cleared, linked, Ok(res.podcastId)))
    case Err(e) =>
      match DirectoryExceptionUpserted(env, inner.tables, call, id, e)
      case Err(e') => Hydration(inner.tables, row, Err(e'))
      case Ok(recorded) => Hydration(recorded, row, Err(e))
  }

  function Hydrated(env: Env, t: Tables, call: Call, id: int, row: DirectoryPodcast): Hydration {
    if BeginOuter in call.faults then Hydration(t, row, Err(Unavailable(BeginOuter)))
    else
      var h := HydrationInner(env, t, call, id, row);
      if h.result.Err? then h.(tables := t)
      else if CommitOuter in call.faults then Hydration(t, h.row, Err(Unavailable(CommitOuter)))
      else h
  }

  class Mediator {
    const conn: Connection
    const env: Env
    const call: Call
    const id: int
    var dirPodcast: DirectoryPodcast

    constructor (conn: Connection, env: Env, call: Call, id: int, dirPodcast: DirectoryPodcast)
      ensures this.conn == conn && this.env == env && this.call == call && this.id == id
      ensures this.dirPodcast == dirPodcast
    {
      this.conn, this.env, this.call, this.id, this.dirPodcast := conn, env, call, id, dirPodcast;
    }

    method DeleteException() returns (r: Result<(), UpdateError>)
      modifies conn
      ensures Wrote(old(conn.tables), conn.tables, r, DirectoryExceptionDeleted(old(conn.tables), call, id))
    {
      var _ :- Attempt(call, RemoveDirectoryException);
      conn.tables := conn.tables.(directoryExceptions := conn.tables.directoryExceptions - {id});
      return Ok(());
    }

    /** The caller's copy is linked before the row is saved. */
    method SaveDirPodcast(podcastId: int) returns (r: Result<(), UpdateError>)
      modifies conn, this
      ensures dirPodcast == old(dirPodcast).(podcastId := Some(podcastId))
      ensures Wrote(old(conn.tables), conn.tables, r, DirectoryPodcastSaved(old(conn.tables), call, id, dirPodcast))
    {
      dirPodcast := dirPodcast.(podcastId := Some(podcastId));
      var _ :- Attempt(call, SaveDirectoryPodcast);
      var rows := conn.tables.directoryPodcasts;
      if id !in rows {
        return Err(MissingRow);
      }
      if !DirectoryPodcastFits(dirPodcast) {
        return Err(CheckViolated);
      }
      if VendorsAt(rows, dirPodcast.directoryId, dirPodcast.vendorId) - {id} != {} {
        return Err(VendorTaken);
      }
      if podcastId !in conn.tables.podcasts {
        return Err(MissingRow);
      }
      conn.tables := conn.tables.(directoryPodcasts := rows[id := dirPodcast]);
      return Ok(());
    }

    method UpsertException(e: UpdateError) returns (r: Result<(), UpdateError>)
      modifies conn
      ensures Wrote(old(conn.tables), conn.tables, r, DirectoryExceptionUpserted(env, old(conn.tables), call, id, e))
    {
      var _ :- Attempt(call, WriteDirectoryException);
      if id !in conn.tables.directoryPodcasts {
        return Err(MissingRow);
      }
      var row := ExceptionRow(env.errorStrings(e), call.times.directoryException);
      conn.tables := conn.tables.(directoryExceptions := conn.tables.directoryExceptions[id := row]);
      return Ok(());
    }

    method RunInner() returns (r: Result<int, UpdateError>)
      modifies conn, this
      ensures Hydration(conn.tables, dirPodcast, r) ==
              HydrationInner(env, old(conn.tables), call, id, old(dirPodcast))
    {
      var updater := new PodcastUpdater.Mediator(conn, env, InnerCall(call, dirPodcast));
      var res := updater.Run();
      match res {
        case Ok(res) =>
          var _ :- SaveDirPodcast(res.podcastId);
          var _ :- DeleteException();
          return Ok(res.podcastId);
        case Err(e) =>
          var _ :- UpsertException(e);
          return Err(e);
      }
    }

    method Run() returns (r: Result<int, UpdateError>)
      modifies conn, this
      ensures Hydration(conn.tables, dirPodcast, r) == Hydrated(env, old(conn.tables), call, id, old(dirPodcast))
    {
      if BeginOuter in call.faults {
        return Err(Unavailable(BeginOuter));
      }
      var snapshot := conn.tables;
      r := RunInner();
      if r.Ok? && CommitOuter in call.faults {
        r := Err(Unavailable(CommitOuter));
      }
      if r.Err? {
        conn.tables := snapshot;
      }
    }
  }

  // ---- What a hydration does ------------------------------------------------------------------

  /** Main result, success: the directory podcast is linked to the podcast that was
      updated and its exception is gone; no other directory row changes, and the
      podcast's tables are as the updater alone leaves them. */
  lemma SuccessLinks(env: Env, t: Tables, call: Call, id: int, row: DirectoryPodcast)
    requires Hydrated(env, t, call, id, row).result.Ok?
    ensures var h := Hydrated(env, t, call, id, row);
            var inner := RunOutcome(env, t, call.(feedUrl := row.feedUrl, disableShortcut := false));
            && inner.result.Ok? && h.result.value == inner.result.value.podcastId
            && h.row == row.(podcastId := Some(h.result.value))
            && h.result.value in h.tables.podcasts
            && h.tables == inner.tables.(
                 directoryPodcasts := t.directoryPodcasts[id := h.row],
                 directoryExceptions := t.directoryExceptions - {id})
  {
    DirectoryTablesUntouched(env, t, InnerCall(call, row));
  }

  /** The updater leaves both directory tables alone. */
  lemma DirectoryTablesUntouched(env: Env, t: Tables, call: Call)
    ensures var after := RunOutcome(env, t, call).tables;
            after.directoryPodcasts == t.directoryPodcasts && after.directoryExceptions == t.directoryExceptions
  {
    if Transacted(env, t, call).Ok? {
      var f := Fetch(env, t.locations, call).value;
      PlaceLeavesDirectory(t, call, f);
      FinishLeavesDirectory(env, Place(t, call, f).value, call, f);
    } else {
      RecoveryLeavesDirectory(env, t, call, Transacted(env, t, call).error);
    }
  }

  lemma PodcastLeavesDirectory(t: Tables, call: Call, row: Podcast, url: string)
    requires PodcastUpserted(t, call, row, url).Ok?
    ensures var after := PodcastUpserted(t, call, row, url).value.tables;
            after == t.(podcasts := after.podcasts)
  {
  }

  lemma LocationLeavesDirectory(t: Tables, call: Call, podcastId: int, url: string)
    requires LocationUpserted(t, call, podcastId, url).Ok?
    ensures var after := LocationUpserted(t, call, podcastId, url).value.tables;
            after == t.(locations := after.locations)
  {
  }

  lemma PlaceLeavesDirectory(t: Tables, call: Call, f: Fetched)
    requires Place(t, call, f).Ok?
    ensures var after := Place(t, call, f).value.tables;
            after.directoryPodcasts == t.directoryPodcasts && after.directoryExceptions == t.directoryExceptions
  {
    PodcastLeavesDirectory(t, call, f.podcast, f.url);
    var p := PodcastUpserted(t, call, f.podcast, f.url).value;
    LocationLeavesDirectory(p.tables, call, p.id, f.url);
  }

  lemma IngestLeavesDirectory(env: Env, t: Tables, call: Call, podcastId: int, f: Fetched)
    requires Ingest(env, t, call, podcastId, f).Ok?
    ensures var after := Ingest(env, t, call, podcastId, f).value.tables;
            after.directoryPodcasts == t.directoryPodcasts && after.directoryExceptions == t.directoryExceptions
  {
    var c := ContentUpserted(env, t, call, podcastId, f.body).value.tables;
    assert c == t.(contents := c.contents);
  }

  lemma FinishLeavesDirectory(env: Env, p: Placed, call: Call, f: Fetched)
    requires Finish(env, p, call, f).Ok?
    ensures var after := Finish(env, p, call, f).value.tables;
            && after.directoryPodcasts == p.tables.directoryPodcasts
            && after.directoryExceptions == p.tables.directoryExceptions
  {
    if Finish(env, p, call, f).value.result.episodes.Some? {
      IngestLeavesDirectory(env, p.tables, call, p.podcastId, f);
    }
  }

  lemma RecoveryLeavesDirectory(env: Env, t: Tables, call: Call, e: UpdateError)
    ensures var after := Recovered(env, t, call, e);
            after.directoryPodcasts == t.directoryPodcasts && after.directoryExceptions == t.directoryExceptions
  {
  }

  /** The exception a failed hydration saves is in place. */
  ghost predicate Recorded(env: Env, t: Tables, call: Call, id: int, e: UpdateError) {
    && id in t.directoryExceptions
    && t.directoryExceptions[id] == ExceptionRow(env.errorStrings(e), call.times.directoryException)
  }

  /** So are the rows of the inner recovery, for the podcast owning the URL. */
  ghost predicate OwnerRecovered(env: Env, t: Tables, call: Call, owner: int, e: UpdateError) {
    && owner in t.podcasts && t.podcasts[owner].lastRetrievedAt == call.times.touched
    && owner in t.podcastExceptions
    && t.podcastExceptions[owner] == ExceptionRow(env.errorStrings(e), call.times.exception)
  }

  lemma RecoveryInPlace(env: Env, t: Tables, call: Call)
    requires Runs.Sound(env, t) && RunOutcome(env, t, call).result.Err?
    ensures var owner, out := QueryPodcast(t.locations, call.feedUrl), RunOutcome(env, t, call);
            owner.Some? && !Runs.RecoveryFault(call) ==>
              OwnerRecovered(env, out.tables, call, owner.value, out.result.error)
  {
    Runs.FailureIsContained(env, t, call);
  }

  lemma RecordInPlace(env: Env, t: Tables, call: Call, id: int, row: DirectoryPodcast)
    requires RunOutcome(env, t, InnerCall(call, row)).result.Err?
    requires id in t.directoryPodcasts && WriteDirectoryException !in call.faults
    ensures var inner, h := RunOutcome(env, t, InnerCall(call, row)), HydrationInner(env, t, call, id, row);
            && h.result == Err(inner.result.error)
            && h.tables == inner.tables.(directoryExceptions := h.tables.directoryExceptions)
            && Recorded(env, h.tables, call, id, inner.result.error)
  {
    DirectoryTablesUntouched(env, t, InnerCall(call, row));
  }

  /** Main result, failure as the code has it: when the update fails, its error is
      saved and the inner recovery has written the owner's rows, all of it in place
      just before the end; the outer rollback then takes it with it. Every failure
      leaves every table as it was. */
  lemma FailureErasesEverything(env: Env, t: Tables, call: Call, id: int, row: DirectoryPodcast)
    requires Runs.Sound(env, t) && Hydrated(env, t, call, id, row).result.Err?
    ensures Hydrated(env, t, call, id, row).tables == t
    ensures var inner := RunOutcome(env, t, call.(feedUrl := row.feedUrl, disableShortcut := false));
            var h := HydrationInner(env, t, call, id, row);
            inner.result.Err? && id in t.directoryPodcasts && WriteDirectoryException !in call.faults ==>
              && h.result == Err(inner.result.error)
              && Recorded(env, h.tables, call, id, inner.result.error)
              && (var owner := QueryPodcast(t.locations, row.feedUrl);
                  owner.Some? && !Runs.RecoveryFault(call) ==>
                    OwnerRecovered(env, h.tables, call, owner.value, inner.result.error))
  {
    if RunOutcome(env, t, InnerCall(call, row)).result.Err? {
      RecoveryInPlace(env, t, InnerCall(call, row));
      if id in t.directoryPodcasts && WriteDirectoryException !in call.faults {
        RecordInPlace(env, t, call, id, row);
      }
    }
  }

  /** What a hydration is for: link and clear on success, record on failure. */
  ghost predicate Intended(env: Env, call: Call, id: int, h: Hydration) {
    match h.result
    case Ok(podcastId) =>
      && id in h.tables.directoryPodcasts && h.tables.directoryPodcasts[id].podcastId == Some(podcastId)
      && id !in h.tables.directoryExceptions
    case Err(e) => Recorded(env, h.tables, call, id, e)
  }

  /** The row exists, the copy fits, and no other row has its vendor id. */
  ghost predicate Savable(rows: map<int, DirectoryPodcast>, id: int, row: DirectoryPodcast) {
    && id in rows
    && |row.feedUrl| <= 500 && |row.title| <= 500 && |row.vendorId| <= 200
    && (row.imageUrl.Some? ==> |row.imageUrl.value| <= 500)
    && (forall other :: other in rows && other != id && rows[other].directoryId == row.directoryId
                        ==> rows[other].vendorId != row.vendorId)
  }

  /** Everything a hydration needs, each known before it: the conditions of an update
      from the row's URL, the row's constraints, and no fault in the outer
      transaction's own statements. */
  ghost predicate Hydratable(env: Env, t: Tables, call: Call, id: int, row: DirectoryPodcast) {
    && Runnable(env, t, call.(feedUrl := row.feedUrl, disableShortcut := false))
    && BeginOuter !in call.faults && SaveDirectoryPodcast !in call.faults
    && RemoveDirectoryException !in call.faults && CommitOuter !in call.faults
    && Savable(t.directoryPodcasts, id, row)
  }

  lemma SavesExactly(t: Tables, call: Call, id: int, row: DirectoryPodcast, podcastId: int)
    requires podcastId in t.podcasts
    ensures DirectoryPodcastSaved(t, call, id, row.(podcastId := Some(podcastId))).Ok? <==>
            SaveDirectoryPodcast !in call.faults && Savable(t.directoryPodcasts, id, row)
  {
    var rows := t.directoryPodcasts;
    var others := VendorsAt(rows, row.directoryId, row.vendorId) - {id};
    forall other | other in rows && other != id && rows[other].directoryId == row.directoryId
      ensures rows[other].vendorId == row.vendorId <==> other in others
    {
    }
    if others != {} {
      var other := PickOne(others);
      assert other in VendorsAt(rows, row.directoryId, row.vendorId);
    }
  }

  /** Main result: a hydration succeeds exactly when it is hydratable. */
  lemma SucceedsExactly(env: Env, t: Tables, call: Call, id: int, row: DirectoryPodcast)
    requires Runs.Sound(env, t) && Runs.Fresh(t, call)
    ensures Hydrated(env, t, call, id, row).result.Ok? <==> Hydratable(env, t, call, id, row)
  {
    var inner := InnerCall(call, row);
    RunSucceedsExactly(env, t, inner);
    DirectoryTablesUntouched(env, t, inner);
    var out := RunOutcome(env, t, inner);
    if out.result.Ok? {
      UpdatedPodcastExists(env, t, inner);
      SavesExactly(out.tables, call, id, row, out.result.value.podcastId);
    }
  }

  lemma UpdatedPodcastExists(env: Env, t: Tables, call: Call)
    requires Runs.Sound(env, t) && Runs.Fresh(t, call) && RunOutcome(env, t, call).result.Ok?
    ensures var out := RunOutcome(env, t, call);
            out.result.value.podcastId in out.tables.podcasts
  {
    Runs.FetchedIsRead(env, t.locations, call);
    var f := Fetch(env, t.locations, call).value;
    Runs.PlaceKeeps(env, t, call, f);
    Runs.FinishKeeps(env, Place(t, call, f).value, call, f);
  }

  /** Main result, the gap: with a clock later than the row's last exception, the
      intent is met exactly when nothing fails. No failure is ever recorded. */
  lemma IntentMetExactly(env: Env, t: Tables, call: Call, id: int, row: DirectoryPodcast)
    requires Runs.Sound(env, t) && Runs.Fresh(t, call)
    requires id in t.directoryExceptions ==> t.directoryExceptions[id].occurredAt < call.times.directoryException
    ensures Intended(env, call, id, Hydrated(env, t, call, id, row)) <==> Hydratable(env, t, call, id, row)
  {
    SucceedsExactly(env, t, call, id, row);
    if Hydratable(env, t, call, id, row) {
      SuccessLinks(env, t, call, id, row);
    } else {
      FailureErasesEverything(env, t, call, id, row);
    }
  }

  /** A response that is not a feed, and a database that never fails. */
  lemma UnrecordedFailureExample(rules: TextRules, row: DirectoryPodcast, times: Times)
    ensures var env := Env(_ => Some(""), _ => [], rules, _ => None, _ => 0, _ => ["No <rss> tag found"]);
            var call := Call(row.feedUrl, false, url => Some(Response(OK_STATUS, [], url)), {}, times, 1, 1, 1, k => k);
            var t := Tables(map[], map[], map[], map[], map[], map[7 := row], map[]);
            var h := Hydrated(env, t, call, 7, row);
            && h.result == Err(BadFeed(NoRssTag))
            && !Intended(env, call, 7, h)
  {
    var env := Env(_ => Some(""), _ => [], rules, _ => None, _ => 0, _ => ["No <rss> tag found"]);
    var call := Call(row.feedUrl, false, url => Some(Response(OK_STATUS, [], url)), {}, times, 1, 1, 1, k => k);
    var t := Tables(map[], map[], map[], map[], map[], map[7 := row], map[]);
    assert LocationsAt(t.locations, row.feedUrl) == {};
    assert FeedOf(env, []) == Err(BadFeed(NoRssTag));
  }

  lemma HydrationKeepsSound(env: Env, t: Tables, call: Call, id: int, row: DirectoryPodcast)
    requires Runs.Sound(env, t) && Runs.Fresh(t, call)
    ensures Runs.Sound(env, Hydrated(env, t, call, id, row).tables)
  {
    var h := Hydrated(env, t, call, id, row);
    if h.result.Ok? {
      SuccessLinks(env, t, call, id, row);
      Runs.RunKeepsSound(env, t, InnerCall(call, row));
      assert DirectoryRefers(h.tables.directoryPodcasts, h.tables.podcasts);
    }
  }

  // ---- Histories ---------------------------------------------------------------------------------

  /** A run of the updater or a content clean-up by itself, or a hydration. */
  datatype Event = Alone(event: Runs.Event) | Hydrate(call: Call, id: int, row: DirectoryPodcast)

  function Next(env: Env, t: Tables, e: Event): Tables {
    match e
    case Alone(event) => Runs.Next(env, t, event)
    case Hydrate(call, id, row) => Hydrated(env, t, call, id, row).tables
  }

  function After(env: Env, t: Tables, events: seq<Event>): Tables
    decreases |events|
  {
    if events == [] then t else After(env, Next(env, t, events[0]), events[1..])
  }

  ghost predicate FreshEvent(t: Tables, e: Event) {
    match e
    case Alone(event) => event.Update? ==> Runs.Fresh(t, event.call)
    case Hydrate(call, _, _) => Runs.Fresh(t, call)
  }

  ghost predicate AllFresh(env: Env, t: Tables, events: seq<Event>)
    decreases |events|
  {
    events != [] ==> FreshEvent(t, events[0]) && AllFresh(env, Next(env, t, events[0]), events[1..])
  }

  /** Main result: over every history of updater runs, content clean-ups and
      hydrations, whatever fails in any of them, every stored content has all its
      GUIDs present, every URL has one owner, and every reference, those of the
      directory included, is to a row that exists. */
  lemma {:induction false} HistoryKeepsSound(env: Env, t: Tables, events: seq<Event>)
    requires Runs.Sound(env, t) && AllFresh(env, t, events)
    ensures Runs.Sound(env, After(env, t, events))
    decreases |events|
  {
    if events != [] {
      match events[0] {
        case Alone(event) => AloneKeepsSound(env, t, event);
        case Hydrate(call, id, row) => HydrationKeepsSound(env, t, call, id, row);
      }
      HistoryKeepsSound(env, Next(env, t, events[0]), events[1..]);
    }
  }

  lemma AloneKeepsSound(env: Env, t: Tables, event: Runs.Event)
    requires Runs.Sound(env, t) && (event.Update? ==> Runs.Fresh(t, event.call))
    ensures Runs.Sound(env, Runs.Next(env, t, event))
  {
    if event.Update? {
      Runs.RunKeepsSound(env, t, event.call);
    }
  }
}
