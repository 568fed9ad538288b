/** One INSERT ... ON CONFLICT (podcast_id, guid) DO UPDATE statement over a list
    of episodes, row by row as the database executes it. */
module EpisodeUpsert {
  import opened Wrappers
  import opened Collections
  import opened EpisodeConversion
  import opened Schema

  datatype EpisodeFault = TooLong | NoPodcast | RowTwice

  /** The table so far, and the ids written so far in order. */
  datatype Upserted = Upserted(episodes: map<int, EpisodeRow>, written: seq<int>)

  /** A row that this statement already wrote may not be hit again. */
  function UpsertRow(u: Upserted, podcasts: set<int>, row: EpisodeRow, newId: int): Result<Upserted, EpisodeFault> {
    var at := EpisodesAt(u.episodes, row.podcastId, row.guid);
    if !EpisodeFits(row) then Err(TooLong)
    else if row.podcastId !in podcasts then Err(NoPodcast)
    else if at == {} then Ok(Upserted(u.episodes[newId := row], u.written + [newId]))
    else if Least(at) in u.written then Err(RowTwice)
    else Ok(Upserted(u.episodes[Least(at) := row], u.written + [Least(at)]))
  }

  function UpsertRows(
    episodes: map<int, EpisodeRow>, podcasts: set<int>, rows: seq<EpisodeRow>, newIds: nat -> int
  ): Result<Upserted, EpisodeFault> {
    if rows == [] then Ok(Upserted(episodes, []))
    else
      var n := |rows| - 1;
      var u :- UpsertRows(episodes, podcasts, rows[..n], newIds);
      UpsertRow(u, podcasts, rows[n], newIds(n))
  }

  ghost predicate AllFor(rows: seq<EpisodeRow>, podcastId: int) {
    forall k :: 0 <= k < |rows| ==> rows[k].podcastId == podcastId
  }

  /** Each written id holds the row it was written for. */
  ghost predicate Holds(u: Upserted, rows: seq<EpisodeRow>) {
    && |u.written| == |rows|
    && forall k :: 0 <= k < |rows| ==> u.written[k] in u.episodes && u.episodes[u.written[k]] == rows[k]
  }

  /** Rows are never dropped, and an existing row keeps its podcast and GUID. */
  ghost predicate KeysKept(before: map<int, EpisodeRow>, after: map<int, EpisodeRow>) {
    forall id :: id in before ==>
      && id in after && after[id].podcastId == before[id].podcastId && after[id].guid == before[id].guid
  }

  /** Everything one row keeps. */
  lemma RowStep(u: Upserted, podcasts: set<int>, row: EpisodeRow, newId: int, rows: seq<EpisodeRow>)
    requires EpisodesUnique(u.episodes) && newId !in u.episodes
    requires Holds(u, rows) && UpsertRow(u, podcasts, row, newId).Ok?
    ensures var u' := UpsertRow(u, podcasts, row, newId).value;
            EpisodesUnique(u'.episodes) && Holds(u', rows + [row]) && KeysKept(u.episodes, u'.episodes)
  {
    var at := EpisodesAt(u.episodes, row.podcastId, row.guid);
    var u' := UpsertRow(u, podcasts, row, newId).value;
    assert EpisodesUnique(u'.episodes) by {
      assert forall i :: i in u.episodes && u.episodes[i].podcastId == row.podcastId && u.episodes[i].guid == row.guid
                         ==> i in at;
    }
    forall k | 0 <= k < |rows|
      ensures u'.written[k] in u'.episodes && u'.episodes[u'.written[k]] == rows[k]
    {
      assert u.written[k] in u.written;
    }
  }

  lemma {:induction false} UpsertUsesIdsInOrder(
    episodes: map<int, EpisodeRow>, podcasts: set<int>, rows: seq<EpisodeRow>, newIds: nat -> int)
    requires FreshIds(episodes.Keys, newIds) && UpsertRows(episodes, podcasts, rows, newIds).Ok?
    ensures UnusedFrom(UpsertRows(episodes, podcasts, rows, newIds).value.episodes.Keys, newIds, |rows|)
    decreases |rows|
  {
    if rows != [] {
      UpsertUsesIdsInOrder(episodes, podcasts, rows[..|rows| - 1], newIds);
    }
  }

  /** The statement keeps the (podcast, guid) index unique, and leaves each row it
      was given at the id it returned for it. */
  lemma {:induction false} UpsertHoldsRows(
    episodes: map<int, EpisodeRow>, podcasts: set<int>, rows: seq<EpisodeRow>, newIds: nat -> int)
    requires EpisodesUnique(episodes) && FreshIds(episodes.Keys, newIds)
    requires UpsertRows(episodes, podcasts, rows, newIds).Ok?
    ensures var u := UpsertRows(episodes, podcasts, rows, newIds).value;
            EpisodesUnique(u.episodes) && Holds(u, rows) && KeysKept(episodes, u.episodes)
    decreases |rows|
  {
    if rows != [] {
      var n := |rows| - 1;
      UpsertHoldsRows(episodes, podcasts, rows[..n], newIds);
      var u := UpsertRows(episodes, podcasts, rows[..n], newIds).value;
      UpsertUsesIdsInOrder(episodes, podcasts, rows[..n], newIds);
      RowStep(u, podcasts, rows[n], newIds(n), rows[..n]);
      assert rows[..n] + [rows[n]] == rows;
    }
  }

  /** Rows whose ids are not returned are as they were, and no others appear. */
  ghost predicate OnlyWritten(before: map<int, EpisodeRow>, u: Upserted) {
    && (forall id :: id in before && id !in u.written ==> id in u.episodes && u.episodes[id] == before[id])
    && (forall id :: id in u.episodes && id !in u.written ==> id in before)
  }

  lemma {:induction false} UpsertTouchesWritten(
    episodes: map<int, EpisodeRow>, podcasts: set<int>, rows: seq<EpisodeRow>, newIds: nat -> int)
    requires UpsertRows(episodes, podcasts, rows, newIds).Ok?
    ensures OnlyWritten(episodes, UpsertRows(episodes, podcasts, rows, newIds).value)
    decreases |rows|
  {
    if rows != [] {
      UpsertTouchesWritten(episodes, podcasts, rows[..|rows| - 1], newIds);
    }
  }

  lemma RowGuids(u: Upserted, podcasts: set<int>, row: EpisodeRow, newId: int, p: int)
    requires newId !in u.episodes && UpsertRow(u, podcasts, row, newId).Ok?
    ensures var u' := UpsertRow(u, podcasts, row, newId).value;
            PresentGuids(u'.episodes, p) ==
            PresentGuids(u.episodes, p) + if row.podcastId == p then {row.guid} else {}
  {
    var at := EpisodesAt(u.episodes, row.podcastId, row.guid);
    var u' := UpsertRow(u, podcasts, row, newId).value;
    var id := if at == {} then newId else Least(at);
    forall g | g in PresentGuids(u'.episodes, p)
      ensures g in PresentGuids(u.episodes, p) + if row.podcastId == p then {row.guid} else {}
    {
      var i :| i in u'.episodes && u'.episodes[i].podcastId == p && u'.episodes[i].guid == g;
      assert i == id || i in u.episodes;
    }
    forall g | g in PresentGuids(u.episodes, p)
      ensures g in PresentGuids(u'.episodes, p)
    {
      var i :| i in u.episodes && u.episodes[i].podcastId == p && u.episodes[i].guid == g;
      assert i in u'.episodes && u'.episodes[i].podcastId == p && u'.episodes[i].guid == g;
    }
    assert u'.episodes[id] == row;
  }

  /** The GUIDs present afterwards are those present before and those upserted. */
  lemma {:induction false} UpsertAddsGuids(
    episodes: map<int, EpisodeRow>, podcasts: set<int>, rows: seq<EpisodeRow>, newIds: nat -> int,
    podcastId: int, p: int)
    requires EpisodesUnique(episodes) && FreshIds(episodes.Keys, newIds) && AllFor(rows, podcastId)
    requires UpsertRows(episodes, podcasts, rows, newIds).Ok?
    ensures var u := UpsertRows(episodes, podcasts, rows, newIds).value;
            PresentGuids(u.episodes, p) ==
            PresentGuids(episodes, p) + if p == podcastId then Guids(rows) else {}
    decreases |rows|
  {
    if rows != [] {
      var n := |rows| - 1;
      UpsertAddsGuids(episodes, podcasts, rows[..n], newIds, podcastId, p);
      var u := UpsertRows(episodes, podcasts, rows[..n], newIds).value;
      UpsertUsesIdsInOrder(episodes, podcasts, rows[..n], newIds);
      RowGuids(u, podcasts, rows[n], newIds(n), p);
      assert rows == rows[..n] + [rows[n]];
      assert Guids(rows) == Guids(rows[..n]) + {rows[n].guid};
    }
  }

  lemma NewGuidNeverCollides(u: Upserted, podcasts: set<int>, rows: seq<EpisodeRow>, row: EpisodeRow, newId: int)
    requires Holds(u, rows)
    requires forall k :: 0 <= k < |rows| ==> rows[k].guid != row.guid
    ensures UpsertRow(u, podcasts, row, newId) != Err(RowTwice)
  {
    assert forall id <- u.written :: id in u.episodes && u.episodes[id].guid != row.guid;
  }

  /** Rows with distinct GUIDs never make the statement hit a row twice. */
  lemma {:induction false} DistinctRowsNeverCollide(
    episodes: map<int, EpisodeRow>, podcasts: set<int>, rows: seq<EpisodeRow>, newIds: nat -> int)
    requires EpisodesUnique(episodes) && FreshIds(episodes.Keys, newIds) && DistinctGuids(rows)
    ensures UpsertRows(episodes, podcasts, rows, newIds) != Err(RowTwice)
    decreases |rows|
  {
    if rows != [] {
      var n := |rows| - 1;
      DistinctRowsNeverCollide(episodes, podcasts, rows[..n], newIds);
      if UpsertRows(episodes, podcasts, rows[..n], newIds).Ok? {
        UpsertHoldsRows(episodes, podcasts, rows[..n], newIds);
        var u := UpsertRows(episodes, podcasts, rows[..n], newIds).value;
        NewGuidNeverCollides(u, podcasts, rows[..n], rows[n], newIds(n));
      }
    }
  }

  /** Every row must fit for the statement to succeed. */
  lemma {:induction false} UpsertedRowsFit(
    episodes: map<int, EpisodeRow>, podcasts: set<int>, rows: seq<EpisodeRow>, newIds: nat -> int, k: nat)
    requires k < |rows| && UpsertRows(episodes, podcasts, rows, newIds).Ok?
    ensures EpisodeFits(rows[k]) && rows[k].podcastId in podcasts
    decreases |rows|
  {
    if k < |rows| - 1 {
      UpsertedRowsFit(episodes, podcasts, rows[..|rows| - 1], newIds, k);
    }
  }

  /** Rows already stored as they are upserted: nothing changes, whatever ids
      the sequence offers, and the same ids are returned. */
  lemma {:induction false} UpsertAgain(
    u: Upserted, podcasts: set<int>, rows: seq<EpisodeRow>, newIds: nat -> int, n: nat)
    requires EpisodesUnique(u.episodes) && Holds(u, rows) && DistinctGuids(rows) && n <= |rows|
    requires forall k :: 0 <= k < |rows| ==> EpisodeFits(rows[k]) && rows[k].podcastId in podcasts
    ensures UpsertRows(u.episodes, podcasts, rows[..n], newIds) == Ok(Upserted(u.episodes, u.written[..n]))
  {
    if n > 0 {
      var m := n - 1;
      UpsertAgain(u, podcasts, rows, newIds, m);
      assert rows[..n][..m] == rows[..m];
      var at := EpisodesAt(u.episodes, rows[m].podcastId, rows[m].guid);
      assert u.written[m] in at;
      assert Least(at) == u.written[m];
      assert forall k :: 0 <= k < m ==> rows[k].guid != rows[m].guid;
      assert u.written[m] !in u.written[..m];
      assert u.episodes[u.written[m] := rows[m]] == u.episodes;
      assert u.written[..m] + [u.written[m]] == u.written[..n];
    }
  }
}
