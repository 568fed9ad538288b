/** When a search is answered from the cache, and when one that is not succeeds. */
module DirectorySuccess {
  import opened Wrappers
  import opened Collections
  import opened Schema
  import opened DirectoryUpsert
  import opened DirectorySearch
  import opened DirectoryCache

  // ---- The usable results -------------------------------------------------------------

  predicate IsUsable(results: seq<SearchResult>, i: nat) {
    i < |results| && results[i].feedUrl.Some?
  }

  /** A result the columns of a directory podcast have room for. */
  predicate ResultFits(call: Call, result: SearchResult)
    requires result.feedUrl.Some?
  {
    && |result.feedUrl.value| <= 500 && |result.collectionName| <= 500
    && |call.show(result.collectionId)| <= 200 && |result.artworkUrl| <= 500
  }

  predicate SameId(call: Call, a: SearchResult, b: SearchResult) {
    call.show(a.collectionId) == call.show(b.collectionId)
  }

  predicate UsableFit(call: Call, results: seq<SearchResult>) {
    forall i :: 0 <= i < |results| && IsUsable(results, i) ==> ResultFits(call, results[i])
  }

  predicate UsableDiffer(call: Call, results: seq<SearchResult>) {
    forall i, j :: 0 <= i < j < |results| && IsUsable(results, i) && IsUsable(results, j)
                   ==> !SameId(call, results[i], results[j])
  }

  function UsableIndices(results: seq<SearchResult>): set<int> {
    set i | 0 <= i < |results| && IsUsable(results, i)
  }

  lemma {:induction false} UsableAre(results: seq<SearchResult>)
    ensures |Usable(results)| == |UsableIndices(results)|
    ensures forall x ::
              x in Usable(results) <==> exists i :: 0 <= i < |results| && IsUsable(results, i) && results[i] == x
    decreases |results|
  {
    if results != [] {
      var n := |results| - 1;
      var init := results[..n];
      UsableAre(init);
      IndicesStep(results);
      forall x
        ensures x in Usable(results) <==> exists i :: 0 <= i < |results| && IsUsable(results, i) && results[i] == x
      {
        UsableMember(results, x);
      }
    }
  }

  lemma IndicesStep(results: seq<SearchResult>)
    requires results != []
    ensures var n := |results| - 1;
            |UsableIndices(results)| == |UsableIndices(results[..n])| + if results[n].feedUrl.Some? then 1 else 0
  {
    var n := |results| - 1;
    var init := results[..n];
    assert forall i :: 0 <= i < n ==> IsUsable(results, i) == IsUsable(init, i);
    if IsUsable(results, n) {
      assert UsableIndices(results) == UsableIndices(init) + {n};
    } else {
      assert UsableIndices(results) == UsableIndices(init);
    }
  }

  lemma UsableMember(results: seq<SearchResult>, x: SearchResult)
    requires results != []
    requires var init := results[..|results| - 1];
             x in Usable(init) <==> exists i :: 0 <= i < |init| && IsUsable(init, i) && init[i] == x
    ensures x in Usable(results) <==> exists i :: 0 <= i < |results| && IsUsable(results, i) && results[i] == x
  {
    var n := |results| - 1;
    var init := results[..n];
    if x in Usable(init) {
      var i :| 0 <= i < n && IsUsable(init, i) && init[i] == x;
      assert IsUsable(results, i) && results[i] == x;
    }
    if x in Usable(results) && x !in Usable(init) {
      assert IsUsable(results, n) && results[n] == x;
    }
    if i :| 0 <= i < |results| && IsUsable(results, i) && results[i] == x {
      if i < n {
        assert IsUsable(init, i) && init[i] == x;
      }
    }
  }

  lemma FitsAlike(call: Call, results: seq<SearchResult>)
    ensures UsableFit(call, results) <==> forall x <- Usable(results) :: ResultFits(call, x)
  {
    UsableAre(results);
  }

  predicate ListedDiffer(call: Call, listed: seq<SearchResult>) {
    forall k, l :: 0 <= k < l < |listed| ==> !SameId(call, listed[k], listed[l])
  }

  lemma {:induction false} DiffersAlike(call: Call, results: seq<SearchResult>)
    ensures UsableDiffer(call, results) <==> ListedDiffer(call, Usable(results))
    decreases |results|
  {
    if results != [] {
      var n := |results| - 1;
      var init, last := results[..n], results[n];
      DiffersAlike(call, init);
      DifferStep(call, results);
      if last.feedUrl.Some? {
        UsableAre(init);
        ListedDifferStep(call, Usable(init), last);
        assert (forall i :: 0 <= i < n && IsUsable(init, i) ==> !SameId(call, init[i], last))
          <==> forall x <- Usable(init) :: !SameId(call, x, last);
      }
    }
  }

  lemma DifferStep(call: Call, results: seq<SearchResult>)
    requires results != []
    ensures var n := |results| - 1;
            var init, last := results[..n], results[n];
            UsableDiffer(call, results) <==>
            UsableDiffer(call, init)
            && (last.feedUrl.Some? ==> forall i :: 0 <= i < n && IsUsable(init, i) ==> !SameId(call, init[i], last))
  {
    var n := |results| - 1;
    var init := results[..n];
    assert forall i :: 0 <= i < n ==> IsUsable(results, i) == IsUsable(init, i) && results[i] == init[i];
  }

  lemma ListedDifferStep(call: Call, listed: seq<SearchResult>, last: SearchResult)
    ensures ListedDiffer(call, listed + [last]) <==>
            ListedDiffer(call, listed) && forall x <- listed :: !SameId(call, x, last)
  {
    var all := listed + [last];
    assert forall k :: 0 <= k < |listed| ==> all[k] == listed[k];
    if ListedDiffer(call, all) {
      forall x | x in listed ensures !SameId(call, x, last) {
        var k :| 0 <= k < |listed| && listed[k] == x;
        assert all[k] == x && all[|listed|] == last;
      }
    }
  }

  // ---- Upserting them -------------------------------------------------------------------

  lemma RowsFitAlike(call: Call, locations: map<int, Location>, results: seq<SearchResult>)
    ensures AllFit(LinkedRows(locations, UnlinkedRows(call, results))) <==> UsableFit(call, results)
  {
    var usable := Usable(results);
    var rows := LinkedRows(locations, UnlinkedRows(call, results));
    FitsAlike(call, results);
    forall k | 0 <= k < |usable| ensures DirectoryPodcastFits(rows[k]) <==> ResultFits(call, usable[k]) {
      assert rows[k] == Linked(locations, Unlinked(call, usable[k]));
    }
  }

  lemma RowsDifferAlike(call: Call, locations: map<int, Location>, results: seq<SearchResult>)
    ensures DistinctVendors(LinkedRows(locations, UnlinkedRows(call, results))) <==> UsableDiffer(call, results)
  {
    var usable := Usable(results);
    var rows := LinkedRows(locations, UnlinkedRows(call, results));
    DiffersAlike(call, results);
    forall k, l | 0 <= k < l < |usable| ensures SameVendor(rows[k], rows[l]) <==> SameId(call, usable[k], usable[l]) {
      assert rows[k] == Linked(locations, Unlinked(call, usable[k]));
      assert rows[l] == Linked(locations, Unlinked(call, usable[l]));
    }
  }

  lemma UpsertSucceedsExactly(c: Cache, call: Call, results: seq<SearchResult>)
    requires VendorsUnique(c.rows) && FreshIds(c.rows.Keys, call.newRowIds)
    ensures PodcastsUpserted(c, call, results).Ok? <==>
            SelectLocations !in call.faults && UpsertPodcasts !in call.faults
            && UsableFit(call, results) && UsableDiffer(call, results)
    ensures PodcastsUpserted(c, call, results).Ok? ==>
              |PodcastsUpserted(c, call, results).value.ids| == |UsableIndices(results)|
  {
    var rows := LinkedRows(c.locations, UnlinkedRows(call, results));
    RowsFitAlike(call, c.locations, results);
    RowsDifferAlike(call, c.locations, results);
    UsableAre(results);
    UpsertsExactly(c.rows, rows, call.newRowIds);
  }

  // ---- The run ------------------------------------------------------------------------------

  predicate IsEntry(c: Cache, call: Call, id: int) {
    id in c.searches && c.searches[id].directoryId == call.directoryId && c.searches[id].query == call.query
  }

  /** The query's entry was retrieved within the hour, in microseconds. */
  predicate IsFreshEntry(c: Cache, call: Call, id: int) {
    IsEntry(c, call, id) && c.searches[id].retrievedAt > call.now - 3600000000
  }

  lemma EntryIsFound(c: Cache, call: Call)
    requires SearchesUnique(c.searches)
    ensures forall id :: IsEntry(c, call, id) ==> SearchesFor(c.searches, call.directoryId, call.query) == {id}
    ensures (forall id :: !IsEntry(c, call, id)) ==> SearchesFor(c.searches, call.directoryId, call.query) == {}
  {
    var found := SearchesFor(c.searches, call.directoryId, call.query);
    assert forall id :: id in found <==> IsEntry(c, call, id);
    forall id | IsEntry(c, call, id) ensures found == {id} {
      assert forall other <- found :: other == id;
    }
    if found != {} {
      var id := PickOne(found);
      assert IsEntry(c, call, id);
    }
  }

  /** Main result: a query with an entry from within the hour is answered from it, and
      nothing but a fault of the statements on that path stops it. */
  lemma FreshIsCached(c: Cache, call: Call, id: int)
    requires Sound(c) && IsFreshEntry(c, call, id)
    ensures var result := RunOutcome(c, call).result;
            && (result.Ok? <==> call.faults !! {Begin, SelectSearch, SelectCached, Commit})
            && (result.Ok? ==> result.value.cached && result.value.searchId == id)
  {
    EntryIsFound(c, call);
  }

  /** What a run that cannot use the cache needs. */
  ghost predicate CanFetch(c: Cache, call: Call) {
    && call.faults !! {Begin, SelectSearch, WriteSearch, SelectLocations, UpsertPodcasts, DeleteJoins, InsertJoins,
                       Commit}
    && ((exists id :: IsEntry(c, call, id)) || |call.query| <= 100)
    && call.response.Some?
    && UsableFit(call, call.response.value) && UsableDiffer(call, call.response.value)
    && |UsableIndices(call.response.value)| <= 1000
  }

  /** Main result: without such an entry, a run succeeds if and only if no statement
      faults, there is a response, a query new to the cache has at most 100
      characters, and the results that have a feed URL fit, differ in their ids and
      are at most a thousand; and then it is not a cached answer. */
  lemma StaleIsFetched(c: Cache, call: Call)
    requires Sound(c) && FreshCall(c, call) && forall id :: !IsFreshEntry(c, call, id)
    ensures RunOutcome(c, call).result.Ok? <==> CanFetch(c, call)
    ensures RunOutcome(c, call).result.Ok? ==> !RunOutcome(c, call).result.value.cached
  {
    if SelectSearch !in call.faults {
      FoundIffEntry(c, call);
      FetchedExactly(c, call);
      StaleGoesOn(c, call);
    }
  }

  lemma StaleGoesOn(c: Cache, call: Call)
    requires SelectDirectorySearch(c, call).Ok?
    requires forall id :: !IsFreshEntry(c, call, id)
    ensures var fetched := FromDirectory(c, call, SelectDirectorySearch(c, call).value);
            && (RunOutcome(c, call).result.Ok? <==> Begin !in call.faults && fetched.Ok? && Commit !in call.faults)
            && (RunOutcome(c, call).result.Ok? ==> !RunOutcome(c, call).result.value.cached)
  {
    FoundIffEntry(c, call);
    var found := SelectDirectorySearch(c, call).value;
    assert found.Some? ==> !IsFreshEntry(c, call, found.value);
    assert Inner(c, call) == FromDirectory(c, call, found);
  }

  lemma FoundIffEntry(c: Cache, call: Call)
    requires SelectSearch !in call.faults
    ensures SelectDirectorySearch(c, call).Ok?
    ensures var found := SelectDirectorySearch(c, call).value;
            && (found.Some? ==> IsEntry(c, call, found.value))
            && (found.Some? <==> exists id :: IsEntry(c, call, id))
  {
    var found := SearchesFor(c.searches, call.directoryId, call.query);
    assert forall id :: id in found <==> IsEntry(c, call, id);
  }

  lemma FetchedExactly(c: Cache, call: Call)
    requires Sound(c) && FreshCall(c, call) && SelectDirectorySearch(c, call).Ok?
    ensures var found := SelectDirectorySearch(c, call).value;
            FromDirectory(c, call, found).Ok? <==>
            && call.faults !! {WriteSearch, SelectLocations, UpsertPodcasts, DeleteJoins, InsertJoins}
            && (found.Some? || |call.query| <= 100)
            && call.response.Some?
            && UsableFit(call, call.response.value) && UsableDiffer(call, call.response.value)
            && |UsableIndices(call.response.value)| <= 1000
  {
    var found := SelectDirectorySearch(c, call).value;
    var marked := SearchMarked(c, call, found);
    if marked.Ok? && call.response.Some? {
      MarkKeeps(c, call);
      UpsertSucceedsExactly(marked.value.cache, call, call.response.value);
    }
  }

  /** A successful run is cached only with an entry from within the hour. */
  lemma CachedOnlyFresh(c: Cache, call: Call)
    requires Sound(c) && RunOutcome(c, call).result.Ok? && RunOutcome(c, call).result.value.cached
    ensures IsFreshEntry(c, call, RunOutcome(c, call).result.value.searchId)
  {
    CachedRun(c, call);
  }
}
