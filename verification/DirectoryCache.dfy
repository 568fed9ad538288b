/** What searches, cleaner batches and hydrations keep between them, over every
    history. */
module DirectoryCache {
  import opened Wrappers
  import opened Collections
  import opened Schema
  import opened DirectoryUpsert
  import opened DirectorySearch
  import opened Cleaner
  import Updater = PodcastUpdater

  // ---- What a sound cache is --------------------------------------------------------------

  ghost predicate SearchesUnique(searches: map<int, Search>) {
    forall i, j :: i in searches && j in searches && searches[i].directoryId == searches[j].directoryId
                   && searches[i].query == searches[j].query
                   ==> i == j
  }

  ghost predicate JoinsUnique(joins: map<int, Join>) {
    forall i, j :: i in joins && j in joins && joins[i].directorySearchId == joins[j].directorySearchId
                   && joins[i].position == joins[j].position
                   ==> i == j
  }

  ghost predicate Sound(c: Cache) {
    SearchesUnique(c.searches) && JoinsUnique(c.joins) && VendorsUnique(c.rows) && References(c)
  }

  /** The joins of a search number these podcasts from 0, with no position left out. */
  ghost predicate Laid(joins: map<int, Join>, searchId: int, ids: seq<int>) {
    && (forall j :: j in joins && joins[j].directorySearchId == searchId ==>
          0 <= joins[j].position < |ids| && joins[j].directoryPodcastId == ids[joins[j].position])
    && (forall k :: 0 <= k < |ids| ==> k in PositionsOf(joins, JoinsOf(joins, searchId)))
  }

  // ---- Reading a laid search back -----------------------------------------------------------

  /** The joins of a search from position `k` on. */
  function JoinsFrom(joins: map<int, Join>, searchId: int, k: nat): set<int> {
    set j | j in joins && joins[j].directorySearchId == searchId && joins[j].position >= k
  }

  lemma NextIsAt(joins: map<int, Join>, searchId: int, ids: seq<int>, k: nat)
    requires JoinsUnique(joins) && Laid(joins, searchId, ids) && k < |ids|
    ensures JoinsFrom(joins, searchId, k) != {}
    ensures var j := NextJoin(joins, JoinsFrom(joins, searchId, k));
            && joins[j].position == k
            && JoinsFrom(joins, searchId, k) - {j} == JoinsFrom(joins, searchId, k + 1)
  {
    assert k in PositionsOf(joins, JoinsOf(joins, searchId));
    var at :| at in JoinsOf(joins, searchId) && joins[at].position == k;
    assert at in JoinsFrom(joins, searchId, k);
    var j := NextJoin(joins, JoinsFrom(joins, searchId, k));
    assert joins[j].position <= joins[at].position;
    var rest, next := JoinsFrom(joins, searchId, k) - {j}, JoinsFrom(joins, searchId, k + 1);
    forall i
      ensures i in rest <==> i in next
    {
    }
  }

  lemma {:induction false} OrderedReadsBack(joins: map<int, Join>, searchId: int, ids: seq<int>, k: nat)
    requires JoinsUnique(joins) && Laid(joins, searchId, ids) && k <= |ids|
    ensures var js := OrderedJoins(joins, JoinsFrom(joins, searchId, k));
            && |js| == |ids| - k
            && forall i :: 0 <= i < |js| ==>
                 joins[js[i]].position == k + i && joins[js[i]].directoryPodcastId == ids[k + i]
    decreases |ids| - k
  {
    if k == |ids| {
      assert forall j :: j !in JoinsFrom(joins, searchId, k);
    } else {
      NextIsAt(joins, searchId, ids, k);
      OrderedReadsBack(joins, searchId, ids, k + 1);
    }
  }

  lemma {:induction false} MatchingKeepsAll(c: Cache, js: seq<int>)
    requires References(c) && AllIn(c.joins, js)
    ensures Matching(c, js) == js
    decreases |js|
  {
    if js != [] {
      MatchingKeepsAll(c, js[..|js| - 1]);
    }
  }

  /** Selecting the cached results of a laid search gives its podcasts in order. */
  lemma CachedReadsBack(c: Cache, searchId: int, ids: seq<int>)
    requires Sound(c) && Laid(c.joins, searchId, ids)
    ensures PodcastsOf(c.joins, CachedJoins(c, searchId)) == ids
    ensures var js := CachedJoins(c, searchId);
            |js| == |ids| && forall k :: 0 <= k < |js| ==> c.joins[js[k]].position == k
  {
    var all, from := JoinsOf(c.joins, searchId), JoinsFrom(c.joins, searchId, 0);
    assert forall j :: j in all <==> j in from;
    assert all == from;
    OrderedReadsBack(c.joins, searchId, ids, 0);
    MatchingKeepsAll(c, OrderedJoins(c.joins, JoinsOf(c.joins, searchId)));
  }

  // ---- Laying the joins -----------------------------------------------------------------------

  lemma {:induction false} AddedJoins(joins: map<int, Join>, searchId: int, ids: seq<int>, newIds: nat -> int)
    requires FreshIds(joins.Keys, newIds)
    ensures var after := JoinsAdded(joins, searchId, ids, newIds);
            && (forall j :: j in joins ==> j in after && after[j] == joins[j])
            && (forall k: nat :: k < |ids| ==> newIds(k) in after && after[newIds(k)] == Join(ids[k], searchId, k))
            && (forall j :: j in after && j !in joins ==>
                  0 <= after[j].position < |ids| && j == newIds(after[j].position)
                  && after[j] == Join(ids[after[j].position], searchId, after[j].position))
    decreases |ids|
  {
    if ids != [] {
      AddedJoins(joins, searchId, ids[..|ids| - 1], newIds);
    }
  }

  /** Fresh joins over a search that had none lay exactly the podcasts given. */
  lemma AddedJoinsAreLaid(joins: map<int, Join>, searchId: int, ids: seq<int>, newIds: nat -> int)
    requires FreshIds(joins.Keys, newIds) && JoinsUnique(joins) && JoinsOf(joins, searchId) == {}
    ensures var after := JoinsAdded(joins, searchId, ids, newIds);
            Laid(after, searchId, ids) && JoinsUnique(after)
  {
    AddedJoins(joins, searchId, ids, newIds);
    var after := JoinsAdded(joins, searchId, ids, newIds);
    assert forall j :: j in joins ==> j !in JoinsOf(joins, searchId);
    forall k | 0 <= k < |ids|
      ensures k in PositionsOf(after, JoinsOf(after, searchId))
    {
      assert newIds(k) in JoinsOf(after, searchId);
    }
  }

  /** Joins of other searches are not touched. */
  lemma OtherSearchesStay(c: Cache, searchId: int, ids: seq<int>, newIds: nat -> int, other: int, laid: seq<int>)
    requires FreshIds(c.joins.Keys, newIds) && other != searchId && Laid(c.joins, other, laid)
    ensures Laid(JoinsAdded(c.joins - JoinsOf(c.joins, searchId), searchId, ids, newIds), other, laid)
  {
    var kept := c.joins - JoinsOf(c.joins, searchId);
    AddedJoins(kept, searchId, ids, newIds);
    var after := JoinsAdded(kept, searchId, ids, newIds);
    assert forall j :: j in after && after[j].directorySearchId == other ==> j in kept && j in c.joins;
    forall k | 0 <= k < |laid|
      ensures k in PositionsOf(after, JoinsOf(after, other))
    {
      assert k in PositionsOf(c.joins, JoinsOf(c.joins, other));
      var j :| j in JoinsOf(c.joins, other) && c.joins[j].position == k;
      assert j in JoinsOf(after, other) && after[j].position == k;
    }
  }

  // ---- One run ------------------------------------------------------------------------------------

  ghost predicate FreshCall(c: Cache, call: Call) {
    call.newSearchId !in c.searches && FreshIds(c.rows.Keys, call.newRowIds) && FreshIds(c.joins.Keys, call.newJoinIds)
  }

  lemma MarkKeeps(c: Cache, call: Call)
    requires Sound(c) && call.newSearchId !in c.searches && SelectDirectorySearch(c, call).Ok?
    requires SearchMarked(c, call, SelectDirectorySearch(c, call).value).Ok?
    ensures var m := SearchMarked(c, call, SelectDirectorySearch(c, call).value).value;
            && Sound(m.cache) && m.cache == c.(searches := m.cache.searches)
            && m.cache.searches == c.searches[m.searchId := Search(call.directoryId, call.query, call.stamp)]
            && (forall s :: s in c.searches && s != m.searchId ==>
                  !(c.searches[s].directoryId == call.directoryId && c.searches[s].query == call.query))
            && (m.searchId in c.searches || JoinsOf(c.joins, m.searchId) == {})
  {
    var found := SearchesFor(c.searches, call.directoryId, call.query);
    assert forall s :: s in c.searches && c.searches[s].directoryId == call.directoryId
                       && c.searches[s].query == call.query
                       ==> s in found;
    if found == {} {
      assert forall j :: j in c.joins ==> c.joins[j].directorySearchId in c.searches;
    }
  }

  lemma UpsertKeeps(c: Cache, call: Call, results: seq<SearchResult>)
    requires Sound(c) && FreshIds(c.rows.Keys, call.newRowIds) && PodcastsUpserted(c, call, results).Ok?
    ensures var u := PodcastsUpserted(c, call, results).value;
            var rows := LinkedRows(c.locations, UnlinkedRows(call, results));
            && VendorsUnique(u.cache.rows) && References(u.cache) && u.cache == c.(rows := u.cache.rows)
            && Holds(Upserted(u.cache.rows, u.ids), rows) && LinksKept(c.rows, u.cache.rows)
  {
    var rows := LinkedRows(c.locations, UnlinkedRows(call, results));
    UpsertHoldsRows(c.rows, rows, call.newRowIds);
    var u := UpsertRows(c.rows, rows, call.newRowIds).value;
    assert PodcastsUpserted(c, call, results) == Ok(Upsertion(c.(rows := u.rows), u.written));
    assert Upserted(u.rows, u.written) == u;
    RowsStay(c, u.rows);
  }

  lemma RowsStay(c: Cache, rows: map<int, DirectoryPodcast>)
    requires References(c) && LinksKept(c.rows, rows)
    ensures References(c.(rows := rows))
  {
    assert forall id :: id in c.rows.Keys ==> id in c.rows && id in rows;
    assert c.rows.Keys <= rows.Keys;
  }

  lemma RefreshKeeps(c: Cache, call: Call, searchId: int, ids: seq<int>)
    requires Sound(c) && FreshIds(c.joins.Keys, call.newJoinIds) && searchId in c.searches
    requires (forall k :: 0 <= k < |ids| ==> ids[k] in c.rows) && JoinsRefreshed(c, call, searchId, ids).Ok?
    ensures var after := JoinsRefreshed(c, call, searchId, ids).value;
            && Sound(after) && after == c.(joins := after.joins) && Laid(after.joins, searchId, ids)
  {
    var kept := c.joins - JoinsOf(c.joins, searchId);
    assert JoinsOf(kept, searchId) == {};
    assert JoinsUnique(kept);
    AddedJoinsAreLaid(kept, searchId, ids, call.newJoinIds);
    AddedJoins(kept, searchId, ids, call.newJoinIds);
  }

  /** Everything an uncached run does to a sound cache. */
  lemma UncachedRun(c: Cache, call: Call)
    requires Sound(c) && FreshCall(c, call)
    requires RunOutcome(c, call).result.Ok? && !RunOutcome(c, call).result.value.cached
    ensures var out := RunOutcome(c, call);
            var a := out.result.value;
            && Sound(out.cache) && Laid(out.cache.joins, a.searchId, a.ids)
            && out.cache.searches == c.searches[a.searchId := Search(call.directoryId, call.query, call.stamp)]
            && LinksKept(c.rows, out.cache.rows)
            && out.cache.joins == JoinsAdded(c.joins - JoinsOf(c.joins, a.searchId), a.searchId, a.ids, call.newJoinIds)
            && call.response.Some?
            && Holds(Upserted(out.cache.rows, a.ids), LinkedRows(c.locations, UnlinkedRows(call, call.response.value)))
            && (forall s :: s in c.searches && s != a.searchId ==>
                  !(c.searches[s].directoryId == call.directoryId && c.searches[s].query == call.query))
  {
    MarkKeeps(c, call);
    var m := SearchMarked(c, call, SelectDirectorySearch(c, call).value).value;
    UpsertKeeps(m.cache, call, call.response.value);
    var u := PodcastsUpserted(m.cache, call, call.response.value).value;
    RefreshKeeps(u.cache, call, m.searchId, u.ids);
  }

  lemma {:induction false} UsableKeepsOrder(results: seq<SearchResult>, i: nat)
    requires i < |results|
    ensures |Usable(results[..i])| <= |Usable(results)|
    ensures results[i].feedUrl.Some? ==>
              |Usable(results[..i])| < |Usable(results)| && Usable(results)[|Usable(results[..i])|] == results[i]
    decreases |results|
  {
    var init := results[..|results| - 1];
    if i < |init| {
      UsableKeepsOrder(init, i);
      assert init[..i] == results[..i];
    } else {
      assert results[..i] == init;
    }
  }

  /** A row shows a search result. */
  ghost predicate ShowsResult(call: Call, row: DirectoryPodcast, result: SearchResult) {
    && row.directoryId == call.directoryId && row.vendorId == call.show(result.collectionId)
    && row.title == result.collectionName && Some(row.feedUrl) == result.feedUrl
    && row.imageUrl == Some(result.artworkUrl)
  }

  /** The id's row shows the result. A row new to the table is linked to the podcast
      that owns its URL, if one does; an old one keeps its link. */
  ghost predicate Shown(c: Cache, call: Call, after: map<int, DirectoryPodcast>, id: int, result: SearchResult)
    requires result.feedUrl.Some?
  {
    && id in after && ShowsResult(call, after[id], result)
    && after[id].podcastId ==
       if id in c.rows then c.rows[id].podcastId else Updater.QueryPodcast(c.locations, result.feedUrl.value)
  }

  ghost predicate AllShown(
    c: Cache, call: Call, after: map<int, DirectoryPodcast>, ids: seq<int>, usable: seq<SearchResult>)
    requires forall x <- usable :: x.feedUrl.Some?
  {
    |ids| == |usable| && forall k :: 0 <= k < |ids| ==> Shown(c, call, after, ids[k], usable[k])
  }

  lemma UpsertedRowsAreShown(c: Cache, call: Call, results: seq<SearchResult>, u: Upserted)
    requires var rows := LinkedRows(c.locations, UnlinkedRows(call, results));
             Holds(u, rows) && LinksKept(c.rows, u.rows) && NewRowsAsGiven(c.rows, u, rows)
    ensures AllShown(c, call, u.rows, u.written, Usable(results))
  {
    var unlinked := UnlinkedRows(call, results);
    var rows, usable := LinkedRows(c.locations, unlinked), Usable(results);
    forall k | 0 <= k < |u.written|
      ensures Shown(c, call, u.rows, u.written[k], usable[k])
    {
      var id := u.written[k];
      assert rows[k] == Linked(c.locations, Unlinked(call, usable[k]));
      assert Shows(u.rows[id], rows[k]);
      if id !in c.rows {
        assert u.rows[id] == rows[k];
      }
    }
  }

  /** Main result: a fetched answer lists, in the order of the results that have a feed
      URL, rows that show them. */
  lemma FetchedAnswerShowsResults(c: Cache, call: Call)
    requires Sound(c) && FreshCall(c, call)
    requires RunOutcome(c, call).result.Ok? && !RunOutcome(c, call).result.value.cached
    ensures call.response.Some?
    ensures AllShown(c, call, RunOutcome(c, call).cache.rows, RunOutcome(c, call).result.value.ids,
                     Usable(call.response.value))
  {
    UncachedRun(c, call);
    UncachedRows(c, call);
    var rows := LinkedRows(c.locations, UnlinkedRows(call, call.response.value));
    UpsertInsertsWhole(c.rows, rows, call.newRowIds);
    var u := Upserted(RunOutcome(c, call).cache.rows, RunOutcome(c, call).result.value.ids);
    UpsertedRowsAreShown(c, call, call.response.value, u);
  }

  lemma UncachedRows(c: Cache, call: Call)
    requires RunOutcome(c, call).result.Ok? && !RunOutcome(c, call).result.value.cached
    ensures call.response.Some?
    ensures var out := RunOutcome(c, call);
            var rows := LinkedRows(c.locations, UnlinkedRows(call, call.response.value));
            UpsertRows(c.rows, rows, call.newRowIds) == Ok(Upserted(out.cache.rows, out.result.value.ids))
  {
  }

  /** A run that fails, or that is answered from the cache, changes nothing. */
  lemma OtherRunsChangeNothing(c: Cache, call: Call)
    requires RunOutcome(c, call).result.Err? || RunOutcome(c, call).result.value.cached
    ensures RunOutcome(c, call).cache == c
  {
  }

  /** A cached answer is the fresh entry's. */
  lemma CachedRun(c: Cache, call: Call)
    requires RunOutcome(c, call).result.Ok? && RunOutcome(c, call).result.value.cached
    ensures var a := RunOutcome(c, call).result.value;
            && a.searchId in c.searches
            && c.searches[a.searchId].directoryId == call.directoryId && c.searches[a.searchId].query == call.query
            && IsFresh(c.searches[a.searchId], call.now)
            && a.joinIds == CachedJoins(c, a.searchId) && a.ids == PodcastsOf(c.joins, a.joinIds)
  {
  }

  // ---- Histories -------------------------------------------------------------------------------------

  /** In microseconds. */
  const WEEK := 604800000000

  /** A search, a batch of either cleaner (`chosen` being what its LIMIT may take), a
      hydration that saves the caller's whole copy of a directory podcast, linked,
      and clears its exception, or any change to the feed locations. */
  datatype Event =
    | Run(call: Call)
    | CleanPodcasts(chosen: set<int>)
    | CleanSearches(chosen: set<int>, now: int)
    | Hydrate(id: int, row: DirectoryPodcast, podcastId: int)
    | Relocate(locations: map<int, Location>)

  function Expired(c: Cache, now: int): set<int> {
    set s | s in c.searches && c.searches[s].retrievedAt < now - WEEK
  }

  /** What the cleaner takes of the searches it may: those older than a week. */
  lemma OnlyOldSearchesGo(c: Cache, chosen: set<int>, now: int, id: int)
    requires id in c.searches
    ensures id !in Next(c, CleanSearches(chosen, now)).searches
            <==> id in chosen && c.searches[id].retrievedAt < now - 604800000000
  {
  }

  /** Deleting a search deletes its joins. */
  function SearchesDeleted(c: Cache, gone: set<int>): Cache {
    var cascaded := set j | j in c.joins && c.joins[j].directorySearchId in gone;
    c.(searches := c.searches - gone, joins := c.joins - cascaded)
  }

  /** A row that is gone, or a vendor id another row has, stops the hydration. */
  function PodcastLinked(c: Cache, id: int, row: DirectoryPodcast, podcastId: int): Cache {
    if id !in c.rows || VendorsAt(c.rows, row.directoryId, row.vendorId) - {id} != {} then c
    else c.(rows := c.rows[id := row.(podcastId := Some(podcastId))], exceptions := c.exceptions - {id})
  }

  function Next(c: Cache, e: Event): Cache {
    match e
    case Run(call) => RunOutcome(c, call).cache
    case CleanPodcasts(chosen) => RowsDeleted(c, chosen * Dangling(c))
    case CleanSearches(chosen, now) => SearchesDeleted(c, chosen * Expired(c, now))
    case Hydrate(id, row, podcastId) => PodcastLinked(c, id, row, podcastId)
    case Relocate(locations) => c.(locations := locations)
  }

  function After(c: Cache, events: seq<Event>): Cache
    decreases |events|
  {
    if events == [] then c else Next(After(c, events[..|events| - 1]), events[|events| - 1])
  }

  ghost predicate AllFresh(c: Cache, events: seq<Event>)
    decreases |events|
  {
    events != [] ==>
      var init, last := events[..|events| - 1], events[|events| - 1];
      AllFresh(c, init) && (last.Run? ==> FreshCall(After(c, init), last.call))
  }

  datatype LastRun = LastRun(ids: seq<int>, at: int)

  /** An uncached run of this query that succeeds is its last one from then on. */
  function Noted(c: Cache, e: Event, previous: Option<LastRun>, directoryId: int, query: string): Option<LastRun> {
    if e.Run? && e.call.directoryId == directoryId && e.call.query == query
       && RunOutcome(c, e.call).result.Ok? && !RunOutcome(c, e.call).result.value.cached
    then Some(LastRun(RunOutcome(c, e.call).result.value.ids, e.call.stamp))
    else previous
  }

  /** The last uncached run of a query that succeeded in a history, if any. */
  function LastUncached(c: Cache, events: seq<Event>, directoryId: int, query: string): Option<LastRun>
    decreases |events|
  {
    if events == [] then None
    else
      var init, last := events[..|events| - 1], events[|events| - 1];
      Noted(After(c, init), last, LastUncached(c, init, directoryId, query), directoryId, query)
  }

  /** The entry holds what that run returned, and its time. */
  ghost predicate Records(c: Cache, searchId: int, last: Option<LastRun>)
    requires searchId in c.searches
  {
    last.Some? && Laid(c.joins, searchId, last.value.ids) && c.searches[searchId].retrievedAt == last.value.at
  }

  lemma LinkKeepsSound(c: Cache, id: int, row: DirectoryPodcast, podcastId: int)
    requires Sound(c)
    ensures Sound(PodcastLinked(c, id, row, podcastId))
  {
    var at := VendorsAt(c.rows, row.directoryId, row.vendorId);
    assert forall i :: i in c.rows && SameVendor(c.rows[i], row) ==> i in at;
    assert forall i :: i in at && i != id ==> i in at - {id};
  }

  lemma ExpiryKeepsSound(c: Cache, gone: set<int>)
    requires Sound(c)
    ensures Sound(SearchesDeleted(c, gone))
  {
  }

  lemma NextKeepsSound(c: Cache, e: Event)
    requires Sound(c) && (e.Run? ==> FreshCall(c, e.call))
    ensures Sound(Next(c, e))
  {
    match e {
      case Run(call) =>
        if RunOutcome(c, call).result.Ok? && !RunOutcome(c, call).result.value.cached {
          UncachedRun(c, call);
        } else {
          OtherRunsChangeNothing(c, call);
        }
      case CleanPodcasts(chosen) => DeletingDangling(c, chosen * Dangling(c));
      case CleanSearches(chosen, now) => ExpiryKeepsSound(c, chosen * Expired(c, now));
      case Hydrate(id, row, podcastId) => LinkKeepsSound(c, id, row, podcastId);
      case Relocate(_) =>
    }
  }

  lemma ExpiryKeepsRecords(c: Cache, gone: set<int>, s: int, last: Option<LastRun>)
    requires s in c.searches && s !in gone && Records(c, s, last)
    ensures Records(SearchesDeleted(c, gone), s, last)
  {
    var after := SearchesDeleted(c, gone);
    assert JoinsOf(after.joins, s) == JoinsOf(c.joins, s);
    forall k | 0 <= k < |last.value.ids|
      ensures k in PositionsOf(after.joins, JoinsOf(after.joins, s))
    {
      assert k in PositionsOf(c.joins, JoinsOf(c.joins, s));
      var j :| j in JoinsOf(c.joins, s) && c.joins[j].position == k;
      assert after.joins[j].position == k;
    }
  }

  /** One event: an entry that stays keeps recording its query's last uncached run. */
  lemma NextRecords(c: Cache, e: Event, s: int, previous: Option<LastRun>)
    requires Sound(c) && (e.Run? ==> FreshCall(c, e.call))
    requires s in Next(c, e).searches && (s in c.searches ==> Records(c, s, previous))
    ensures var row := Next(c, e).searches[s];
            Records(Next(c, e), s, Noted(c, e, previous, row.directoryId, row.query))
  {
    match e {
      case Run(call) =>
        if RunOutcome(c, call).result.Ok? && !RunOutcome(c, call).result.value.cached {
          UncachedRun(c, call);
          var a := RunOutcome(c, call).result.value;
          if s != a.searchId {
            OtherSearchesStay(c, a.searchId, a.ids, call.newJoinIds, s, previous.value.ids);
          }
        } else {
          OtherRunsChangeNothing(c, call);
        }
      case CleanPodcasts(_) =>
      case CleanSearches(chosen, now) => ExpiryKeepsRecords(c, chosen * Expired(c, now), s, previous);
      case Hydrate(_, _, _) =>
      case Relocate(_) =>
    }
  }

  /** A database nobody has searched yet. */
  ghost predicate Unsearched(c: Cache) {
    Sound(c) && c.searches == map[] && c.joins == map[]
  }

  /** Main result: over every history, each entry in the cache holds the podcasts of
      its query's last uncached run that succeeded, in order and numbered from 0,
      and carries that run's time. A run that failed leaves no trace in either. */
  lemma {:induction false} EntriesRecordLastRuns(c: Cache, events: seq<Event>, s: int)
    requires Unsearched(c) && AllFresh(c, events)
    ensures Sound(After(c, events))
    ensures s in After(c, events).searches ==>
              var row := After(c, events).searches[s];
              Records(After(c, events), s, LastUncached(c, events, row.directoryId, row.query))
    decreases |events|
  {
    if events != [] {
      var init, last := events[..|events| - 1], events[|events| - 1];
      EntriesRecordLastRuns(c, init, s);
      var before := After(c, init);
      NextKeepsSound(before, last);
      if s in After(c, events).searches {
        var row := After(c, events).searches[s];
        if s in before.searches {
          NextKeepsQuery(before, last, s);
        }
        NextRecords(before, last, s, LastUncached(c, init, row.directoryId, row.query));
      }
    }
  }

  /** An entry never changes the query it is for. */
  lemma NextKeepsQuery(c: Cache, e: Event, s: int)
    requires Sound(c) && (e.Run? ==> FreshCall(c, e.call)) && s in c.searches && s in Next(c, e).searches
    ensures Next(c, e).searches[s].(retrievedAt := 0) == c.searches[s].(retrievedAt := 0)
  {
    if e.Run? {
      var out := RunOutcome(c, e.call);
      if out.result.Ok? && !out.result.value.cached {
        MarkKeeps(c, e.call);
        UncachedRun(c, e.call);
        KeptQuery(c, e.call, s);
      } else {
        OtherRunsChangeNothing(c, e.call);
      }
    }
  }

  lemma KeptQuery(c: Cache, call: Call, s: int)
    requires s in c.searches && call.newSearchId !in c.searches
    requires RunOutcome(c, call).result.Ok? && !RunOutcome(c, call).result.value.cached
    ensures RunOutcome(c, call).result.value.searchId == s ==>
              c.searches[s].directoryId == call.directoryId && c.searches[s].query == call.query
  {
  }

  /** Main result: a search answered from the cache returns the podcasts its query's
      last uncached run returned, in the same order and numbered from 0, and that
      run was within the hour. */
  lemma CachedAnswerIsLastUncached(c: Cache, events: seq<Event>, call: Call)
    requires Unsearched(c) && AllFresh(c, events)
    requires RunOutcome(After(c, events), call).result.Ok? && RunOutcome(After(c, events), call).result.value.cached
    ensures var before := After(c, events);
            var a, last := RunOutcome(before, call).result.value, LastUncached(c, events, call.directoryId, call.query);
            && last.Some? && a.ids == last.value.ids && call.now - HOUR < last.value.at
            && |a.joinIds| == |a.ids| && AllIn(before.joins, a.joinIds)
            && forall k :: 0 <= k < |a.ids| ==> before.joins[a.joinIds[k]] == Join(a.ids[k], a.searchId, k)
  {
    var before := After(c, events);
    CachedRun(before, call);
    var a := RunOutcome(before, call).result.value;
    EntriesRecordLastRuns(c, events, a.searchId);
    CachedReadsBack(before, a.searchId, LastUncached(c, events, call.directoryId, call.query).value.ids);
    CachedJoinsAreOf(before, a.searchId);
  }

  lemma {:induction false} MatchingIsWithin(c: Cache, js: seq<int>, within: set<int>)
    requires AllIn(c.joins, js) && forall k :: 0 <= k < |js| ==> js[k] in within
    ensures forall k :: 0 <= k < |Matching(c, js)| ==> Matching(c, js)[k] in within
    decreases |js|
  {
    if js != [] {
      MatchingIsWithin(c, js[..|js| - 1], within);
    }
  }

  lemma CachedJoinsAreOf(c: Cache, searchId: int)
    ensures forall k :: 0 <= k < |CachedJoins(c, searchId)| ==>
              c.joins[CachedJoins(c, searchId)[k]].directorySearchId == searchId
  {
    MatchingIsWithin(c, OrderedJoins(c.joins, JoinsOf(c.joins, searchId)), JoinsOf(c.joins, searchId));
  }

  /** Main result: a directory podcast once linked stays, and stays linked, through
      every history; a search never clears a link. */
  lemma {:induction false} LinksAreNeverCleared(c: Cache, events: seq<Event>, id: int)
    requires Sound(c) && AllFresh(c, events) && id in c.rows && c.rows[id].podcastId.Some?
    ensures Sound(After(c, events))
    ensures id in After(c, events).rows && After(c, events).rows[id].podcastId.Some?
    decreases |events|
  {
    if events != [] {
      var init, last := events[..|events| - 1], events[|events| - 1];
      LinksAreNeverCleared(c, init, id);
      var before := After(c, init);
      NextKeepsSound(before, last);
      if last.Run? {
        if RunOutcome(before, last.call).result.Ok? && !RunOutcome(before, last.call).result.value.cached {
          UncachedRun(before, last.call);
        } else {
          OtherRunsChangeNothing(before, last.call);
        }
      }
    }
  }
}
