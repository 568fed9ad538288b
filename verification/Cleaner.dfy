/** Deleting the directory podcasts nothing refers to, a batch at a time. */
module Cleaner {
  import opened Wrappers
  import opened DirectorySearch

  // ---- One batch -----------------------------------------------------------------------

  /** Never linked to a podcast, in no search's results, and with no exception. */
  predicate IsDangling(c: Cache, id: int) {
    && id in c.rows && c.rows[id].podcastId.None?
    && (forall j :: j in c.joins ==> c.joins[j].directoryPodcastId != id)
    && id !in c.exceptions
  }

  function Dangling(c: Cache): set<int> {
    set id | id in c.rows && IsDangling(c, id)
  }

  function RowsDeleted(c: Cache, ids: set<int>): Cache {
    c.(rows := c.rows - ids)
  }

  /** `LIMIT` takes any rows it likes, as many as there are up to the limit. */
  ghost predicate Limits(pick: (set<int>, nat) -> set<int>) {
    forall s, limit ::
      pick(s, limit) <= s && |pick(s, limit)| == if |s| <= limit then |s| else limit
  }

  ghost predicate References(c: Cache) {
    && (forall j :: j in c.joins ==> c.joins[j].directoryPodcastId in c.rows)
    && (forall j :: j in c.joins ==> c.joins[j].directorySearchId in c.searches)
    && c.exceptions <= c.rows.Keys
  }

  /** Deleting dangling rows leaves exactly the others dangling, and breaks no
      reference. */
  lemma DeletingDangling(c: Cache, ids: set<int>)
    requires ids <= Dangling(c)
    ensures Dangling(RowsDeleted(c, ids)) == Dangling(c) - ids
    ensures References(c) ==> References(RowsDeleted(c, ids))
  {
    var after := RowsDeleted(c, ids);
    forall id | id in c.rows && id !in ids
      ensures IsDangling(after, id) == IsDangling(c, id)
    {
      assert after.rows[id] == c.rows[id];
    }
    assert forall id <- ids :: IsDangling(c, id);
  }

  /** The rows of one cache that another lacks. */
  function Gone(before: Cache, after: Cache): set<int> {
    before.rows.Keys - after.rows.Keys
  }

  lemma GoneAre(c: Cache, ids: set<int>)
    requires ids <= c.rows.Keys
    ensures Gone(c, RowsDeleted(c, ids)) == ids
  {
  }

  lemma SubsetSize(a: set<int>, b: set<int>)
    requires a <= b
    ensures |b - a| == |b| - |a|
  {
    assert b == (b - a) + a;
  }

  // ---- The loop ----------------------------------------------------------------------------

  /** A batch that failed; the ones before it stay committed. */
  datatype BatchError = BatchError(batch: nat)

  class Worker {
    const pick: (set<int>, nat) -> set<int>
    const failing: nat -> bool
    const limit: nat
    var cache: Cache

    constructor (cache: Cache, limit: nat, pick: (set<int>, nat) -> set<int>, failing: nat -> bool)
      ensures this.cache == cache && this.limit == limit && this.pick == pick && this.failing == failing
    {
      this.cache, this.limit, this.pick, this.failing := cache, limit, pick, failing;
    }

    /** Deletes as many dangling rows as there are up to the limit, and nothing else.
        The others stay dangling. */
    method DeleteDirectoryPodcastBatch() returns (count: nat)
      requires Limits(pick)
      modifies this
      ensures cache == RowsDeleted(old(cache), Gone(old(cache), cache))
      ensures Gone(old(cache), cache) <= Dangling(old(cache))
      ensures Dangling(cache) == Dangling(old(cache)) - Gone(old(cache), cache)
      ensures count == |Gone(old(cache), cache)|
      ensures count == if |Dangling(old(cache))| <= limit then |Dangling(old(cache))| else limit
      ensures References(old(cache)) ==> References(cache)
    {
      var ids := pick(Dangling(cache), limit);
      DeletingDangling(cache, ids);
      GoneAre(cache, ids);
      cache := cache.(rows := cache.rows - ids);
      return |ids|;
    }

    /** Main result: run alone with a limit of at least 1 the loop ends, having deleted
        exactly the dangling rows and counted them; when a batch fails, what was
        deleted before it was dangling. No reference is broken either way. */
    method Work() returns (r: Result<nat, BatchError>)
      requires Limits(pick) && limit >= 1
      modifies this
      ensures r.Ok? ==> cache == RowsDeleted(old(cache), Dangling(old(cache))) && r.value == |Dangling(old(cache))|
      ensures r.Ok? ==> Dangling(cache) == {}
      ensures r.Ok? ==>
                forall id :: id in cache.rows <==>
                  && id in old(cache.rows)
                  && (|| old(cache.rows)[id].podcastId.Some?
                      || (exists j :: j in cache.joins && cache.joins[j].directoryPodcastId == id)
                      || id in cache.exceptions)
      ensures r.Ok? ==> forall id <- cache.rows :: cache.rows[id] == old(cache.rows)[id]
      ensures r.Err? ==> failing(r.error.batch)
                         && exists ids :: ids <= Dangling(old(cache)) && cache == RowsDeleted(old(cache), ids)
      ensures References(old(cache)) ==> References(cache)
    {
      var numCleaned: nat := 0;
      var batch: nat := 0;
      ghost var deleted: set<int> := {};
      assert cache == RowsDeleted(cache, {});
      while true
        invariant deleted <= Dangling(old(cache)) && cache == RowsDeleted(old(cache), deleted)
        invariant Dangling(cache) == Dangling(old(cache)) - deleted
        invariant numCleaned == |deleted|
        decreases |Dangling(cache)|
      {
        DeletingDangling(old(cache), deleted);
        if failing(batch) {
          return Err(BatchError(batch));
        }
        ghost var before := cache;
        var count := DeleteDirectoryPodcastBatch();
        ghost var ids := Gone(before, cache);
        OneBatch(old(cache), deleted, ids);
        SubsetSize(ids, Dangling(before));
        deleted := deleted + ids;
        numCleaned := numCleaned + count;
        if count < 1 {
          assert ids == {};
          break;
        }
        batch := batch + 1;
      }
      EmptyDifference(deleted, Dangling(old(cache)));
      DeletingDangling(old(cache), deleted);
      return Ok(numCleaned);
    }
  }

  lemma OneBatch(c: Cache, deleted: set<int>, ids: set<int>)
    requires deleted <= Dangling(c) && ids <= Dangling(c) - deleted
    ensures RowsDeleted(RowsDeleted(c, deleted), ids) == RowsDeleted(c, deleted + ids)
    ensures Dangling(RowsDeleted(c, deleted + ids)) == Dangling(c) - (deleted + ids)
    ensures |deleted + ids| == |deleted| + |ids|
  {
    DeletingDangling(c, deleted + ids);
    assert (c.rows - deleted) - ids == c.rows - (deleted + ids);
  }

  lemma EmptyDifference(a: set<int>, b: set<int>)
    requires a <= b && b - a == {}
    ensures a == b
  {
    assert forall x <- b :: x in a || x in b - a;
  }
}
