/** Searching a directory through a cache that stays fresh for an hour. */
module DirectorySearch {
  import opened Wrappers
  import opened Collections
  import opened Schema
  import opened DirectoryUpsert
  import Updater = PodcastUpdater

  datatype Search = Search(directoryId: int, query: string, retrievedAt: int)

  datatype Join = Join(directoryPodcastId: int, directorySearchId: int, position: int)

  /** The tables the search and the cleaner work on. `exceptions` are the directory
      podcasts with a recorded exception; `locations` are only read here. */
  datatype Cache = Cache(
    searches: map<int, Search>,
    joins: map<int, Join>,
    rows: map<int, DirectoryPodcast>,
    exceptions: set<int>,
    locations: map<int, Location>)

  datatype SearchResult = SearchResult(
    artworkUrl: string, collectionId: int, collectionName: string, feedUrl: Option<string>)

  datatype Statement =
    | Begin | SelectSearch | SelectCached | WriteSearch | SelectLocations | UpsertPodcasts | DeleteJoins | InsertJoins
    | Commit

  datatype SearchError = Unavailable(statement: Statement) | FetchFailed | CheckViolated | VendorTwice | MissingRow

  /** One invocation. `response` is what fetching and decoding the results gives,
      if either works; `now` decides freshness and `stamp` is recorded. `show`
      prints a collection id. */
  datatype Call = Call(
    directoryId: int,
    query: string,
    now: int,
    stamp: int,
    response: Option<seq<SearchResult>>,
    show: int -> string,
    faults: set<Statement>,
    newSearchId: int,
    newRowIds: nat -> int,
    newJoinIds: nat -> int)

  datatype Answer = Answer(cached: bool, searchId: int, ids: seq<int>, joinIds: seq<int>)

  datatype Done = Done(cache: Cache, answer: Answer)

  /** In microseconds. */
  const HOUR := 3600000000

  const QUERY_LIMIT := 100
  const POSITION_LIMIT := 1000

  function Attempt(call: Call, statement: Statement): Result<(), SearchError> {
    if statement in call.faults then Err(Unavailable(statement)) else Ok(())
  }

  // ---- The cache entry ------------------------------------------------------------------

  function SearchesFor(searches: map<int, Search>, directoryId: int, query: string): set<int> {
    set id | id in searches && searches[id].directoryId == directoryId && searches[id].query == query
  }

  function SelectDirectorySearch(c: Cache, call: Call): (r: Result<Option<int>, SearchError>)
    ensures r.Ok? && r.value.Some? ==> r.value.value in c.searches
  {
    var _ :- Attempt(call, SelectSearch);
    var found := SearchesFor(c.searches, call.directoryId, call.query);
    Ok(if found == {} then None else Some(Least(found)))
  }

  predicate IsFresh(search: Search, now: int) {
    search.retrievedAt > now - HOUR
  }

  datatype Marked = Marked(cache: Cache, searchId: int)

  /** The entry's time is moved, or the entry made, before anything is fetched. */
  function SearchMarked(c: Cache, call: Call, found: Option<int>): Result<Marked, SearchError> {
    var _ :- Attempt(call, WriteSearch);
    match found
    case Some(id) =>
      if id !in c.searches then Err(MissingRow)
      else Ok(Marked(c.(searches := c.searches[id := c.searches[id].(retrievedAt := call.stamp)]), id))
    case None =>
      if |call.query| > QUERY_LIMIT then Err(CheckViolated)
      else
        var row := Search(call.directoryId, call.query, call.stamp);
        Ok(Marked(c.(searches := c.searches[call.newSearchId := row]), call.newSearchId))
  }

  // ---- Cached results ----------------------------------------------------------------------

  function JoinsOf(joins: map<int, Join>, searchId: int): set<int> {
    set j | j in joins && joins[j].directorySearchId == searchId
  }

  function PositionsOf(joins: map<int, Join>, pending: set<int>): set<int>
    requires pending <= joins.Keys
  {
    set j | j in pending :: joins[j].position
  }

  lemma SomePosition(joins: map<int, Join>, pending: set<int>)
    requires pending <= joins.Keys && pending != {}
    ensures PositionsOf(joins, pending) != {}
  {
    var j := PickOne(pending);
    assert joins[j].position in PositionsOf(joins, pending);
  }

  /** The next of the pending joins in the order of their positions. */
  function NextJoin(joins: map<int, Join>, pending: set<int>): (j: int)
    requires pending <= joins.Keys && pending != {}
    ensures j in pending && forall other <- pending :: joins[j].position <= joins[other].position
  {
    SomePosition(joins, pending);
    var first := Least(PositionsOf(joins, pending));
    var here := set j | j in pending && joins[j].position == first;
    assert forall other <- pending :: joins[other].position in PositionsOf(joins, pending);
    assert here != {} by {
      var j :| j in pending && joins[j].position == first;
      assert j in here;
    }
    Least(here)
  }

  function OrderedJoins(joins: map<int, Join>, pending: set<int>): (js: seq<int>)
    requires pending <= joins.Keys
    ensures forall k :: 0 <= k < |js| ==> js[k] in pending
    decreases |pending|
  {
    if pending == {} then []
    else
      var j := NextJoin(joins, pending);
      [j] + OrderedJoins(joins, pending - {j})
  }

  predicate AllIn(joins: map<int, Join>, js: seq<int>) {
    forall k :: 0 <= k < |js| ==> js[k] in joins
  }

  /** The inner join with the directory podcasts. */
  function Matching(c: Cache, js: seq<int>): (r: seq<int>)
    requires AllIn(c.joins, js)
    ensures AllIn(c.joins, r)
  {
    if js == [] then []
    else
      var j := js[|js| - 1];
      var init := Matching(c, js[..|js| - 1]);
      if c.joins[j].directoryPodcastId in c.rows then init + [j] else init
  }

  function CachedJoins(c: Cache, searchId: int): (js: seq<int>)
    ensures AllIn(c.joins, js)
  {
    Matching(c, OrderedJoins(c.joins, JoinsOf(c.joins, searchId)))
  }

  function PodcastsOf(joins: map<int, Join>, js: seq<int>): (ids: seq<int>)
    requires AllIn(joins, js)
    ensures |ids| == |js|
    ensures forall k :: 0 <= k < |js| ==> ids[k] == joins[js[k]].directoryPodcastId
  {
    seq(|js|, k requires 0 <= k < |js| && AllIn(joins, js) => joins[js[k]].directoryPodcastId)
  }

  // ---- Fresh results --------------------------------------------------------------------------

  /** Results without a feed URL are dropped. */
  function Usable(results: seq<SearchResult>): (r: seq<SearchResult>)
    ensures forall x <- r :: x.feedUrl.Some?
  {
    if results == [] then []
    else
      var init := Usable(results[..|results| - 1]);
      var last := results[|results| - 1];
      if last.feedUrl.Some? then init + [last] else init
  }

  function Unlinked(call: Call, result: SearchResult): DirectoryPodcast
    requires result.feedUrl.Some?
  {
    DirectoryPodcast(call.directoryId, result.feedUrl.value, None, result.collectionName,
                     call.show(result.collectionId), Some(result.artworkUrl))
  }

  function Linked(locations: map<int, Location>, row: DirectoryPodcast): DirectoryPodcast {
    row.(podcastId := Updater.QueryPodcast(locations, row.feedUrl))
  }

  function UnlinkedRows(call: Call, results: seq<SearchResult>): (rows: seq<DirectoryPodcast>)
    ensures |rows| == |Usable(results)|
    ensures forall k :: 0 <= k < |rows| ==> rows[k] == Unlinked(call, Usable(results)[k])
  {
    var usable := Usable(results);
    seq(|usable|, k requires 0 <= k < |usable| => Unlinked(call, usable[k]))
  }

  /** What is inserted: each row linked to the podcast that owns its feed URL. */
  function LinkedRows(locations: map<int, Location>, unlinked: seq<DirectoryPodcast>): (rows: seq<DirectoryPodcast>)
    ensures |rows| == |unlinked|
    ensures forall k :: 0 <= k < |rows| ==> rows[k] == Linked(locations, unlinked[k])
  {
    seq(|unlinked|, k requires 0 <= k < |unlinked| => Linked(locations, unlinked[k]))
  }

  datatype Upsertion = Upsertion(cache: Cache, ids: seq<int>)

  function PodcastsUpserted(c: Cache, call: Call, results: seq<SearchResult>): Result<Upsertion, SearchError> {
    var _ :- Attempt(call, SelectLocations);
    var _ :- Attempt(call, UpsertPodcasts);
    match UpsertRows(c.rows, LinkedRows(c.locations, UnlinkedRows(call, results)), call.newRowIds)
    case Err(TooLong) => Err(CheckViolated)
    case Err(VendorTwice) => Err(SearchError.VendorTwice)
    case Ok(u) => Ok(Upsertion(c.(rows := u.rows), u.written))
  }

  /** One join a podcast, numbered from 0. */
  function JoinsAdded(joins: map<int, Join>, searchId: int, ids: seq<int>, newIds: nat -> int): map<int, Join> {
    if ids == [] then joins
    else
      var k := |ids| - 1;
      JoinsAdded(joins, searchId, ids[..k], newIds)[newIds(k) := Join(ids[k], searchId, k)]
  }

  /** An INSERT of several rows, each taking the next id of the sequence. */
  function Inserted(joins: map<int, Join>, rows: seq<Join>, newIds: nat -> int): map<int, Join> {
    if rows == [] then joins
    else
      var k := |rows| - 1;
      Inserted(joins, rows[..k], newIds)[newIds(k) := rows[k]]
  }

  lemma {:induction false} InsertedOneByOne(
    joins: map<int, Join>, searchId: int, ids: seq<int>, rows: seq<Join>, newIds: nat -> int)
    requires |rows| == |ids| && forall k :: 0 <= k < |ids| ==> rows[k] == Join(ids[k], searchId, k)
    ensures Inserted(joins, rows, newIds) == JoinsAdded(joins, searchId, ids, newIds)
    decreases |ids|
  {
    if ids != [] {
      var n := |ids| - 1;
      InsertedOneByOne(joins, searchId, ids[..n], rows[..n], newIds);
    }
  }

  function FirstIds(newIds: nat -> int, n: nat): seq<int> {
    seq(n, k requires 0 <= k < n => newIds(k))
  }

  function JoinsRefreshed(c: Cache, call: Call, searchId: int, ids: seq<int>): Result<Cache, SearchError> {
    var _ :- Attempt(call, DeleteJoins);
    var _ :- Attempt(call, InsertJoins);
    if |ids| > POSITION_LIMIT then Err(CheckViolated)
    else Ok(c.(joins := JoinsAdded(c.joins - JoinsOf(c.joins, searchId), searchId, ids, call.newJoinIds)))
  }

  // ---- The run ----------------------------------------------------------------------------------

  function FromCache(c: Cache, call: Call, id: int): Result<Done, SearchError> {
    var _ :- Attempt(call, SelectCached);
    var js := CachedJoins(c, id);
    Ok(Done(c, Answer(true, id, PodcastsOf(c.joins, js), js)))
  }

  function FromDirectory(c: Cache, call: Call, found: Option<int>): Result<Done, SearchError> {
    var m :- SearchMarked(c, call, found);
    if call.response.None? then Err(FetchFailed)
    else
      var u :- PodcastsUpserted(m.cache, call, call.response.value);
      var c' :- JoinsRefreshed(u.cache, call, m.searchId, u.ids);
      Ok(Done(c', Answer(false, m.searchId, u.ids, FirstIds(call.newJoinIds, |u.ids|))))
  }

  function Inner(c: Cache, call: Call): Result<Done, SearchError> {
    var found :- SelectDirectorySearch(c, call);
    if found.Some? && IsFresh(c.searches[found.value], call.now) then
      FromCache(c, call, found.value)
    else FromDirectory(c, call, found)
  }

  function Transacted(c: Cache, call: Call): Result<Done, SearchError> {
    var _ :- Attempt(call, Begin);
    var done :- Inner(c, call);
    var _ :- Attempt(call, Commit);
    Ok(done)
  }

  datatype Outcome = Outcome(cache: Cache, result: Result<Answer, SearchError>)

  function RunOutcome(c: Cache, call: Call): Outcome {
    match Transacted(c, call)
    case Ok(done) => Outcome(done.cache, Ok(done.answer))
    case Err(e) => Outcome(c, Err(e))
  }

  // ---- The mediator -----------------------------------------------------------------------------

  class Mediator {
    const call: Call
    var cache: Cache

    constructor (call: Call, cache: Cache)
      ensures this.call == call && this.cache == cache
    {
      this.call, this.cache := call, cache;
    }

    method SelectCachedResults(searchId: int) returns (r: Result<Answer, SearchError>)
      ensures match FromCache(cache, call, searchId)
              case Ok(done) => r == Ok(done.answer)
              case Err(e) => r == Err(e)
    {
      var _ :- Attempt(call, SelectCached);
      var joined := CachedJoins(cache, searchId);
      var directoryPodcasts, joins := [], [];
      for i := 0 to |joined|
        invariant joins == joined[..i]
        invariant |directoryPodcasts| == i
        invariant forall k :: 0 <= k < i ==> directoryPodcasts[k] == cache.joins[joined[k]].directoryPodcastId
      {
        directoryPodcasts := directoryPodcasts + [cache.joins[joined[i]].directoryPodcastId];
        joins := joins + [joined[i]];
      }
      assert joins == joined && directoryPodcasts == PodcastsOf(cache.joins, joined);
      return Ok(Answer(true, searchId, directoryPodcasts, joins));
    }

    /** Inserts the search, or moves the time of the one found. */
    method MarkDirectorySearch(found: Option<int>) returns (r: Result<int, SearchError>)
      modifies this
      ensures match SearchMarked(old(cache), call, found)
              case Ok(m) => r == Ok(m.searchId) && cache == m.cache
              case Err(e) => r == Err(e) && cache == old(cache)
    {
      var _ :- Attempt(call, WriteSearch);
      if found.Some? {
        if found.value !in cache.searches {
          return Err(MissingRow);
        }
        var row := cache.searches[found.value].(retrievedAt := call.stamp);
        cache := cache.(searches := cache.searches[found.value := row]);
        return Ok(found.value);
      }
      if |call.query| > QUERY_LIMIT {
        return Err(CheckViolated);
      }
      var row := Search(call.directoryId, call.query, call.stamp);
      cache := cache.(searches := cache.searches[call.newSearchId := row]);
      return Ok(call.newSearchId);
    }

    method UpsertDirectoryPodcasts(results: seq<SearchResult>) returns (r: Result<seq<int>, SearchError>)
      modifies this
      ensures match PodcastsUpserted(old(cache), call, results)
              case Ok(u) => r == Ok(u.ids) && cache == u.cache
              case Err(e) => r == Err(e) && cache == old(cache)
    {
      var unlinked := UnlinkedRows(call, results);
      var rows := unlinked;
      var _ :- Attempt(call, SelectLocations);
      for i := 0 to |rows|
        invariant |rows| == |unlinked| && cache == old(cache)
        invariant forall k :: 0 <= k < i ==> rows[k] == Linked(cache.locations, unlinked[k])
        invariant forall k :: i <= k < |rows| ==> rows[k] == unlinked[k]
      {
        rows := rows[i := rows[i].(podcastId := Updater.QueryPodcast(cache.locations, rows[i].feedUrl))];
      }
      assert rows == LinkedRows(cache.locations, unlinked);
      var _ :- Attempt(call, UpsertPodcasts);
      match UpsertRows(cache.rows, rows, call.newRowIds) {
        case Err(TooLong) => return Err(CheckViolated);
        case Err(VendorTwice) => return Err(SearchError.VendorTwice);
        case Ok(u) =>
          cache := cache.(rows := u.rows);
          return Ok(u.written);
      }
    }

    method RefreshJoins(searchId: int, ids: seq<int>) returns (r: Result<(), SearchError>)
      modifies this
      ensures match JoinsRefreshed(old(cache), call, searchId, ids)
              case Ok(c) => r.Ok? && cache == c
              case Err(e) => r == Err(e)
    {
      var _ :- Attempt(call, DeleteJoins);
      cache := cache.(joins := cache.joins - JoinsOf(cache.joins, searchId));
      var insJoins: seq<Join> := [];
      for i := 0 to |ids|
        invariant |insJoins| == i
        invariant forall k :: 0 <= k < i ==> insJoins[k] == Join(ids[k], searchId, k)
      {
        insJoins := insJoins + [Join(ids[i], searchId, i)];
      }
      var _ :- Attempt(call, InsertJoins);
      if exists k :: 0 <= k < |insJoins| && insJoins[k].position >= POSITION_LIMIT {
        return Err(CheckViolated);
      }
      assert |ids| > POSITION_LIMIT ==> insJoins[POSITION_LIMIT].position >= POSITION_LIMIT;
      InsertedOneByOne(cache.joins, searchId, ids, insJoins, call.newJoinIds);
      cache := cache.(joins := Inserted(cache.joins, insJoins, call.newJoinIds));
      return Ok(());
    }

    /** The cache an error leaves behind is rolled back by the caller. */
    method RunInner() returns (r: Result<Answer, SearchError>)
      modifies this
      ensures match Inner(old(cache), call)
              case Ok(done) => r == Ok(done.answer) && cache == done.cache
              case Err(e) => r == Err(e)
    {
      var found :- SelectDirectorySearch(cache, call);
      if found.Some? && IsFresh(cache.searches[found.value], call.now) {
        r := SelectCachedResults(found.value);
        return;
      }
      var searchId :- MarkDirectorySearch(found);
      if call.response.None? {
        return Err(FetchFailed);
      }
      var ids :- UpsertDirectoryPodcasts(call.response.value);
      var _ :- RefreshJoins(searchId, ids);
      return Ok(Answer(false, searchId, ids, FirstIds(call.newJoinIds, |ids|)));
    }

    method Run() returns (r: Result<Answer, SearchError>)
      modifies this
      ensures RunOutcome(old(cache), call) == Outcome(cache, r)
    {
      if Begin in call.faults {
        return Err(Unavailable(Begin));
      }
      var snapshot := cache;
      r := RunInner();
      if r.Ok? && Commit in call.faults {
        r := Err(Unavailable(Commit));
      }
      if r.Err? {
        cache := snapshot;
      }
    }
  }
}
