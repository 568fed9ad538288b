/** One INSERT ... ON CONFLICT (directory_id, vendor_id) DO UPDATE statement over
    search results, row by row as the database executes it. */
module DirectoryUpsert {
  import opened Wrappers
  import opened Collections
  import opened Schema

  datatype UpsertFault = TooLong | VendorTwice

  datatype Upserted = Upserted(rows: map<int, DirectoryPodcast>, written: seq<int>)

  /** On conflict the link to a podcast is not among the columns set. */
  function Refreshed(stored: DirectoryPodcast, row: DirectoryPodcast): DirectoryPodcast {
    stored.(feedUrl := row.feedUrl, imageUrl := row.imageUrl, title := row.title)
  }

  function UpsertRow(u: Upserted, row: DirectoryPodcast, newId: int): Result<Upserted, UpsertFault> {
    var at := VendorsAt(u.rows, row.directoryId, row.vendorId);
    if !DirectoryPodcastFits(row) then Err(TooLong)
    else if at == {} then Ok(Upserted(u.rows[newId := row], u.written + [newId]))
    else if Least(at) in u.written then Err(VendorTwice)
    else Ok(Upserted(u.rows[Least(at) := Refreshed(u.rows[Least(at)], row)], u.written + [Least(at)]))
  }

  function UpsertRows(
    table: map<int, DirectoryPodcast>, rows: seq<DirectoryPodcast>, newIds: nat -> int
  ): Result<Upserted, UpsertFault> {
    if rows == [] then Ok(Upserted(table, []))
    else
      var n := |rows| - 1;
      var u :- UpsertRows(table, rows[..n], newIds);
      UpsertRow(u, rows[n], newIds(n))
  }

  ghost predicate VendorsUnique(rows: map<int, DirectoryPodcast>) {
    forall i, j :: i in rows && j in rows && rows[i].directoryId == rows[j].directoryId
                   && rows[i].vendorId == rows[j].vendorId
                   ==> i == j
  }

  /** The columns a search result decides. */
  predicate Shows(stored: DirectoryPodcast, row: DirectoryPodcast) {
    && stored.directoryId == row.directoryId && stored.vendorId == row.vendorId
    && stored.feedUrl == row.feedUrl && stored.imageUrl == row.imageUrl && stored.title == row.title
  }

  /** Each written id shows the row it was written for. */
  ghost predicate Holds(u: Upserted, rows: seq<DirectoryPodcast>) {
    && |u.written| == |rows|
    && forall k :: 0 <= k < |rows| ==> u.written[k] in u.rows && Shows(u.rows[u.written[k]], rows[k])
  }

  /** Existing rows stay, each with its vendor id and its link to a podcast. */
  ghost predicate LinksKept(before: map<int, DirectoryPodcast>, after: map<int, DirectoryPodcast>) {
    forall id :: id in before ==>
      && id in after && after[id].podcastId == before[id].podcastId
      && after[id].directoryId == before[id].directoryId && after[id].vendorId == before[id].vendorId
  }

  predicate SameVendor(a: DirectoryPodcast, b: DirectoryPodcast) {
    a.directoryId == b.directoryId && a.vendorId == b.vendorId
  }

  predicate DistinctVendors(rows: seq<DirectoryPodcast>) {
    forall k, l :: 0 <= k < l < |rows| ==> !SameVendor(rows[k], rows[l])
  }

  predicate AllFit(rows: seq<DirectoryPodcast>) {
    forall k :: 0 <= k < |rows| ==> DirectoryPodcastFits(rows[k])
  }

  lemma RowStep(u: Upserted, row: DirectoryPodcast, newId: int, rows: seq<DirectoryPodcast>)
    requires VendorsUnique(u.rows) && newId !in u.rows && Holds(u, rows) && UpsertRow(u, row, newId).Ok?
    ensures var u' := UpsertRow(u, row, newId).value;
            VendorsUnique(u'.rows) && Holds(u', rows + [row]) && LinksKept(u.rows, u'.rows)
  {
    var at := VendorsAt(u.rows, row.directoryId, row.vendorId);
    var u' := UpsertRow(u, row, newId).value;
    assert VendorsUnique(u'.rows) by {
      assert forall i :: i in u.rows && SameVendor(u.rows[i], row) ==> i in at;
    }
    forall k | 0 <= k < |rows|
      ensures u'.written[k] in u'.rows && Shows(u'.rows[u'.written[k]], rows[k])
    {
      assert u.written[k] in u.written;
    }
  }

  lemma {:induction false} UpsertUsesIdsInOrder(
    table: map<int, DirectoryPodcast>, rows: seq<DirectoryPodcast>, newIds: nat -> int)
    requires FreshIds(table.Keys, newIds) && UpsertRows(table, rows, newIds).Ok?
    ensures UnusedFrom(UpsertRows(table, rows, newIds).value.rows.Keys, newIds, |rows|)
    decreases |rows|
  {
    if rows != [] {
      UpsertUsesIdsInOrder(table, rows[..|rows| - 1], newIds);
    }
  }

  /** Main result: the statement keeps the (directory, vendor) index unique, returns
      for each row an id that shows it, and neither clears nor sets the link of a row
      that was there before. */
  lemma {:induction false} UpsertHoldsRows(
    table: map<int, DirectoryPodcast>, rows: seq<DirectoryPodcast>, newIds: nat -> int)
    requires VendorsUnique(table) && FreshIds(table.Keys, newIds) && UpsertRows(table, rows, newIds).Ok?
    ensures var u := UpsertRows(table, rows, newIds).value;
            VendorsUnique(u.rows) && Holds(u, rows) && LinksKept(table, u.rows)
    decreases |rows|
  {
    if rows != [] {
      var n := |rows| - 1;
      UpsertHoldsRows(table, rows[..n], newIds);
      UpsertUsesIdsInOrder(table, rows[..n], newIds);
      var u := UpsertRows(table, rows[..n], newIds).value;
      RowStep(u, rows[n], newIds(n), rows[..n]);
      assert rows[..n] + [rows[n]] == rows;
    }
  }

  /** Every row was there before or has been written. */
  ghost predicate NoOtherRows(table: map<int, DirectoryPodcast>, u: Upserted) {
    forall id :: id in u.rows && id !in table ==> id in u.written
  }

  /** Rows new to the table are as they were given. */
  ghost predicate NewRowsAsGiven(table: map<int, DirectoryPodcast>, u: Upserted, rows: seq<DirectoryPodcast>) {
    && |u.written| == |rows|
    && forall k :: 0 <= k < |rows| && u.written[k] !in table ==>
         u.written[k] in u.rows && u.rows[u.written[k]] == rows[k]
  }

  lemma {:induction false} UpsertAddsWrittenOnly(
    table: map<int, DirectoryPodcast>, rows: seq<DirectoryPodcast>, newIds: nat -> int)
    requires UpsertRows(table, rows, newIds).Ok?
    ensures NoOtherRows(table, UpsertRows(table, rows, newIds).value)
    decreases |rows|
  {
    if rows != [] {
      UpsertAddsWrittenOnly(table, rows[..|rows| - 1], newIds);
    }
  }

  lemma NewRowStep(
    table: map<int, DirectoryPodcast>, u: Upserted, rows: seq<DirectoryPodcast>, row: DirectoryPodcast, newId: int)
    requires NoOtherRows(table, u) && NewRowsAsGiven(table, u, rows)
    requires newId !in u.rows && UpsertRow(u, row, newId).Ok?
    ensures NewRowsAsGiven(table, UpsertRow(u, row, newId).value, rows + [row])
  {
    var u' := UpsertRow(u, row, newId).value;
    forall k | 0 <= k < |rows| && u'.written[k] !in table
      ensures u'.written[k] in u'.rows && u'.rows[u'.written[k]] == rows[k]
    {
      assert u.written[k] in u.written;
    }
  }

  /** A row that was not there before is inserted whole, its link included. */
  lemma {:induction false} UpsertInsertsWhole(
    table: map<int, DirectoryPodcast>, rows: seq<DirectoryPodcast>, newIds: nat -> int)
    requires FreshIds(table.Keys, newIds) && UpsertRows(table, rows, newIds).Ok?
    ensures NewRowsAsGiven(table, UpsertRows(table, rows, newIds).value, rows)
    decreases |rows|
  {
    if rows != [] {
      var n := |rows| - 1;
      UpsertInsertsWhole(table, rows[..n], newIds);
      UpsertUsesIdsInOrder(table, rows[..n], newIds);
      UpsertAddsWrittenOnly(table, rows[..n], newIds);
      NewRowStep(table, UpsertRows(table, rows[..n], newIds).value, rows[..n], rows[n], newIds(n));
      assert rows[..n] + [rows[n]] == rows;
    }
  }

  /** A row collides exactly with an earlier row of the same vendor id. */
  lemma RowCollidesExactly(
    table: map<int, DirectoryPodcast>, u: Upserted, rows: seq<DirectoryPodcast>, row: DirectoryPodcast, newId: int)
    requires VendorsUnique(u.rows) && Holds(u, rows) && DirectoryPodcastFits(row)
    ensures UpsertRow(u, row, newId).Ok? <==> forall k :: 0 <= k < |rows| ==> !SameVendor(rows[k], row)
    ensures UpsertRow(u, row, newId).Err? ==> UpsertRow(u, row, newId).error == VendorTwice
  {
    var at := VendorsAt(u.rows, row.directoryId, row.vendorId);
    forall k | 0 <= k < |rows| && SameVendor(rows[k], row)
      ensures UpsertRow(u, row, newId).Err?
    {
      assert u.written[k] in at;
      assert Least(at) == u.written[k];
    }
    if at != {} && Least(at) in u.written {
      var k :| 0 <= k < |u.written| && u.written[k] == Least(at);
      assert SameVendor(rows[k], row);
    }
  }

  lemma DistinctStep(rows: seq<DirectoryPodcast>)
    requires rows != []
    ensures var init, last := rows[..|rows| - 1], rows[|rows| - 1];
            DistinctVendors(rows) <==>
            DistinctVendors(init) && forall k :: 0 <= k < |init| ==> !SameVendor(init[k], last)
  {
    var init := rows[..|rows| - 1];
    assert forall k :: 0 <= k < |init| ==> init[k] == rows[k];
  }

  /** Main result: rows that satisfy the CHECK constraints are upserted exactly when
      no vendor id repeats among them. */
  lemma {:induction false} UpsertsExactlyDistinct(
    table: map<int, DirectoryPodcast>, rows: seq<DirectoryPodcast>, newIds: nat -> int)
    requires VendorsUnique(table) && FreshIds(table.Keys, newIds) && AllFit(rows)
    ensures UpsertRows(table, rows, newIds).Ok? <==> DistinctVendors(rows)
    decreases |rows|
  {
    if rows != [] {
      var n := |rows| - 1;
      var init := rows[..n];
      UpsertsExactlyDistinct(table, init, newIds);
      DistinctStep(rows);
      if UpsertRows(table, init, newIds).Ok? {
        UpsertHoldsRows(table, init, newIds);
        RowCollidesExactly(table, UpsertRows(table, init, newIds).value, init, rows[n], newIds(n));
      }
    }
  }

  lemma {:induction false} UpsertedRowsFit(
    table: map<int, DirectoryPodcast>, rows: seq<DirectoryPodcast>, newIds: nat -> int)
    requires UpsertRows(table, rows, newIds).Ok?
    ensures AllFit(rows)
    decreases |rows|
  {
    if rows != [] {
      var n := |rows| - 1;
      UpsertedRowsFit(table, rows[..n], newIds);
      assert forall k :: 0 <= k < n ==> rows[k] == rows[..n][k];
    }
  }

  /** Rows are upserted if and only if each fits and no vendor id repeats. */
  lemma UpsertsExactly(table: map<int, DirectoryPodcast>, rows: seq<DirectoryPodcast>, newIds: nat -> int)
    requires VendorsUnique(table) && FreshIds(table.Keys, newIds)
    ensures UpsertRows(table, rows, newIds).Ok? <==> AllFit(rows) && DistinctVendors(rows)
    ensures UpsertRows(table, rows, newIds).Ok? ==> |UpsertRows(table, rows, newIds).value.written| == |rows|
  {
    if UpsertRows(table, rows, newIds).Ok? {
      UpsertedRowsFit(table, rows, newIds);
      UpsertHoldsRows(table, rows, newIds);
    }
    if AllFit(rows) {
      UpsertsExactlyDistinct(table, rows, newIds);
    }
  }
}
