/** Keyset paging over a podcast table that others may change between pages. */
module PodcastReingester {
  import opened Wrappers
  import opened Collections

  /** A podcast with its newest content and location, either of which the
      subselects leave null when there is none. */
  datatype Row = Row(content: Option<Bytes>, feedUrl: Option<string>)

  /** The podcast table as one page query sees it, by id. */
  type Snapshot = map<int, Row>

  datatype PodcastTuple = PodcastTuple(id: int, content: Bytes, feedUrl: string)

  const PAGE_SIZE := 100

  // ---- One page --------------------------------------------------------------

  function Above(ids: set<int>, after: int): set<int> {
    set id | id in ids && id > after
  }

  /** `WHERE id > after ORDER BY id LIMIT limit`. */
  function PageIds(ids: set<int>, after: int, limit: nat): seq<int>
    decreases limit
  {
    if limit == 0 || Above(ids, after) == {} then []
    else
      var id := Least(Above(ids, after));
      [id] + PageIds(ids, id, limit - 1)
  }

  predicate Ascending(s: seq<int>) {
    forall i, j :: 0 <= i < j < |s| ==> s[i] < s[j]
  }

  function LastOr(s: seq<int>, otherwise: int): int {
    if s == [] then otherwise else s[|s| - 1]
  }

  /** A page holds the lowest ids above its start, without gaps, and only falls
      short of the limit when none are left. */
  lemma {:induction false} PageTakesLowest(ids: set<int>, after: int, limit: nat)
    ensures var page := PageIds(ids, after, limit);
            && Ascending(page)
            && (forall id :: id in page <==> id in ids && after < id <= LastOr(page, after))
            && LastOr(page, after) >= after
            && |page| + |Above(ids, LastOr(page, after))| == |Above(ids, after)|
            && (|page| == limit || Above(ids, LastOr(page, after)) == {})
    decreases limit
  {
    if limit != 0 && Above(ids, after) != {} {
      var id := Least(Above(ids, after));
      var rest := PageIds(ids, id, limit - 1);
      PageTakesLowest(ids, id, limit - 1);
      LeastAbove(ids, after);
      PageGrows(ids, after, id, rest);
    }
  }

  lemma LeastAbove(ids: set<int>, after: int)
    requires Above(ids, after) != {}
    ensures var id := Least(Above(ids, after));
            && after < id && id in ids
            && (forall x :: x in ids && after < x <= id ==> x == id)
            && |Above(ids, after)| == 1 + |Above(ids, id)|
  {
    var id := Least(Above(ids, after));
    assert Above(ids, after) == {id} + Above(ids, id);
    forall x | x in ids && after < x <= id ensures x == id {
      assert x in Above(ids, after);
    }
  }

  lemma PageGrows(ids: set<int>, after: int, id: int, rest: seq<int>)
    requires after < id && id in ids && forall x :: x in ids && after < x <= id ==> x == id
    requires Ascending(rest) && forall x :: x in rest <==> x in ids && id < x <= LastOr(rest, id)
    requires LastOr(rest, id) >= id
    ensures var page := [id] + rest;
            && Ascending(page) && LastOr(page, after) == LastOr(rest, id)
            && (forall x :: x in page <==> x in ids && after < x <= LastOr(rest, id))
  {
    assert forall j :: 0 <= j < |rest| ==> rest[j] in rest;
  }

  /** Reading a row fails on a null in a column that may not hold one. */
  function ReadRow(t: Snapshot, id: int): Option<PodcastTuple>
    requires id in t
  {
    match t[id]
    case Row(Some(content), Some(feedUrl)) => Some(PodcastTuple(id, content, feedUrl))
    case _ => None
  }

  function ReadRows(t: Snapshot, ids: seq<int>): Option<seq<PodcastTuple>>
    requires forall id <- ids :: id in t
  {
    if ids == [] then Some([])
    else
      match (ReadRow(t, ids[0]), ReadRows(t, ids[1..]))
      case (Some(row), Some(rows)) => Some([row] + rows)
      case _ => None
  }

  function Ids(rows: seq<PodcastTuple>): seq<int> {
    seq(|rows|, i requires 0 <= i < |rows| => rows[i].id)
  }

  /** The tuple has the podcast's newest content and newest location. */
  predicate Readable(t: Snapshot, row: PodcastTuple) {
    row.id in t && t[row.id].content == Some(row.content) && t[row.id].feedUrl == Some(row.feedUrl)
  }

  /** A podcast with a content and a location. */
  predicate IsWhole(t: Snapshot, id: int)
    requires id in t
  {
    t[id].content.Some? && t[id].feedUrl.Some?
  }

  lemma {:induction false} RowsRead(t: Snapshot, ids: seq<int>)
    requires forall id <- ids :: id in t
    ensures var rows := ReadRows(t, ids);
            rows.Some? ==> Ids(rows.value) == ids && forall row <- rows.value :: Readable(t, row)
    ensures ReadRows(t, ids).Some? <==> forall id <- ids :: IsWhole(t, id)
  {
    if ids != [] {
      RowsRead(t, ids[1..]);
      assert ids == [ids[0]] + ids[1..];
      assert (forall id <- ids :: IsWhole(t, id)) <==> IsWhole(t, ids[0]) && forall id <- ids[1..] :: IsWhole(t, id);
    }
  }

  function SelectPodcasts(t: Snapshot, startId: int): Option<seq<PodcastTuple>> {
    PageTakesLowest(t.Keys, startId, PAGE_SIZE);
    ReadRows(t, PageIds(t.Keys, startId, PAGE_SIZE))
  }

  // ---- A run -------------------------------------------------------------------

  /** `Unfinished` is a run seen before its end. */
  datatype Status = Finished | Aborted | Unfinished

  datatype Run = Run(sent: seq<PodcastTuple>, status: Status)

  /** A run whose successive page queries see the given snapshots. */
  function RunFrom(snapshots: seq<Snapshot>, lastId: int): Run {
    if snapshots == [] then Run([], Unfinished)
    else
      match SelectPodcasts(snapshots[0], lastId)
      case None => Run([], Aborted)
      case Some(rows) =>
        if rows == [] then Run([], Finished)
        else
          var r := RunFrom(snapshots[1..], rows[|rows| - 1].id);
          Run(rows + r.sent, r.status)
  }

  class Channel {
    var sent: seq<PodcastTuple>

    constructor ()
      ensures sent == []
    {
      sent := [];
    }

    method Send(t: PodcastTuple)
      modifies this
      ensures sent == old(sent) + [t]
    {
      sent := sent + [t];
    }
  }

  method SendPage(podcastTuples: seq<PodcastTuple>, workSend: Channel)
    modifies workSend
    ensures workSend.sent == old(workSend.sent) + podcastTuples
  {
    for i := 0 to |podcastTuples|
      invariant workSend.sent == old(workSend.sent) + podcastTuples[..i]
    {
      workSend.Send(podcastTuples[i]);
    }
    assert podcastTuples[..|podcastTuples|] == podcastTuples;
  }

  /** Pages through a table that shows `snapshots` to successive queries. The
      count covers every podcast sent. */
  method PagePodcasts(snapshots: seq<Snapshot>, workSend: Channel) returns (numPodcasts: nat, status: Status)
    modifies workSend
    ensures workSend.sent == old(workSend.sent) + RunFrom(snapshots, 0).sent
    ensures status == RunFrom(snapshots, 0).status
    ensures numPodcasts == |RunFrom(snapshots, 0).sent|
  {
    var lastId := 0;
    numPodcasts := 0;
    var k := 0;
    while k < |snapshots|
      invariant 0 <= k <= |snapshots|
      invariant numPodcasts + |RunFrom(snapshots[k..], lastId).sent| == |RunFrom(snapshots, 0).sent|
      invariant workSend.sent + RunFrom(snapshots[k..], lastId).sent
             == old(workSend.sent) + RunFrom(snapshots, 0).sent
      invariant RunFrom(snapshots[k..], lastId).status == RunFrom(snapshots, 0).status
    {
      assert snapshots[k..][1..] == snapshots[k + 1..];
      var selected := SelectPodcasts(snapshots[k], lastId);
      if selected.None? {
        return numPodcasts, Aborted;
      }
      var podcastTuples := selected.value;
      if podcastTuples == [] {
        return numPodcasts, Finished;
      }
      ghost var before := workSend.sent;
      SendPage(podcastTuples, workSend);
      lastId := podcastTuples[|podcastTuples| - 1].id;
      Regroup(before, podcastTuples, RunFrom(snapshots[k + 1..], lastId).sent);
      numPodcasts := numPodcasts + |podcastTuples|;
      k := k + 1;
    }
    return numPodcasts, Unfinished;
  }

  lemma SelectedPage(t: Snapshot, startId: int, rows: seq<PodcastTuple>)
    requires SelectPodcasts(t, startId) == Some(rows)
    ensures Ids(rows) == PageIds(t.Keys, startId, PAGE_SIZE)
    ensures Ascending(Ids(rows)) && forall id <- Ids(rows) :: id > startId
    ensures forall id | id in t && startId < id <= LastOr(Ids(rows), startId) :: id in Ids(rows)
    ensures rows == [] ==> Above(t.Keys, startId) == {}
    ensures rows != [] ==> LastOr(Ids(rows), startId) == rows[|rows| - 1].id > startId
  {
    PageTakesLowest(t.Keys, startId, PAGE_SIZE);
    RowsRead(t, PageIds(t.Keys, startId, PAGE_SIZE));
    if rows != [] {
      assert Ids(rows)[|rows| - 1] in Ids(rows);
    }
  }

  lemma SelectedRows(t: Snapshot, startId: int, rows: seq<PodcastTuple>)
    requires SelectPodcasts(t, startId) == Some(rows)
    ensures forall row <- rows :: Readable(t, row)
  {
    PageTakesLowest(t.Keys, startId, PAGE_SIZE);
    RowsRead(t, PageIds(t.Keys, startId, PAGE_SIZE));
  }

  lemma IdsConcat(a: seq<PodcastTuple>, b: seq<PodcastTuple>)
    ensures Ids(a + b) == Ids(a) + Ids(b)
  {
  }

  lemma AscendingConcat(a: seq<int>, b: seq<int>, middle: int)
    requires Ascending(a) && Ascending(b) && LastOr(a, middle) == middle
    requires forall x <- b :: x > middle
    ensures Ascending(a + b)
  {
    assert forall i :: 0 <= i < |a| ==> a[i] <= middle;
    forall j | 0 <= j < |b| ensures b[j] > middle {
      assert b[j] in b;
    }
  }

  /** Main result: whatever happens between pages, podcasts are sent in strictly
      ascending order, so none twice. */
  lemma {:induction false} SendsAscending(snapshots: seq<Snapshot>, lastId: int)
    ensures var sent := Ids(RunFrom(snapshots, lastId).sent);
            Ascending(sent) && forall id <- sent :: id > lastId
    decreases |snapshots|
  {
    if snapshots != [] && SelectPodcasts(snapshots[0], lastId).Some? {
      var rows := SelectPodcasts(snapshots[0], lastId).value;
      if rows != [] {
        var last := rows[|rows| - 1].id;
        var rest := RunFrom(snapshots[1..], last).sent;
        SendsAscending(snapshots[1..], last);
        IdsConcat(rows, rest);
        SelectedPage(snapshots[0], lastId, rows);
        AscendingConcat(Ids(rows), Ids(rest), last);
      }
    }
  }

  /** Each podcast is sent as some query of the run saw it. */
  lemma {:induction false} SendsWhatWasSeen(snapshots: seq<Snapshot>, lastId: int)
    ensures forall row <- RunFrom(snapshots, lastId).sent :: exists t <- snapshots :: Readable(t, row)
    decreases |snapshots|
  {
    if snapshots != [] && SelectPodcasts(snapshots[0], lastId).Some? {
      var rows := SelectPodcasts(snapshots[0], lastId).value;
      if rows != [] {
        var last := rows[|rows| - 1].id;
        var rest := RunFrom(snapshots[1..], last).sent;
        SendsWhatWasSeen(snapshots[1..], last);
        forall row | row in rows + rest ensures exists t <- snapshots :: Readable(t, row) {
          if row in rows {
            SelectedRows(snapshots[0], lastId, rows);
            assert snapshots[0] in snapshots;
          } else {
            var t :| t in snapshots[1..] && Readable(t, row);
            assert t in snapshots;
          }
        }
      }
    }
  }

  /** Main result: a run that finishes has sent every podcast that was there for
      each of its queries. */
  lemma {:induction false} SendsAllThatStay(snapshots: seq<Snapshot>, lastId: int, id: int)
    requires RunFrom(snapshots, lastId).status == Finished
    requires id > lastId && forall t <- snapshots :: id in t
    ensures id in Ids(RunFrom(snapshots, lastId).sent)
    decreases |snapshots|
  {
    var rows := SelectPodcasts(snapshots[0], lastId).value;
    assert id in Above(snapshots[0].Keys, lastId);
    SelectedPage(snapshots[0], lastId, rows);
    var last := rows[|rows| - 1].id;
    var rest := RunFrom(snapshots[1..], last).sent;
    IdsConcat(rows, rest);
    if id > last {
      SendsAllThatStay(snapshots[1..], last, id);
    }
  }

  // ---- A table that stays the same ------------------------------------------------

  function Same(t: Snapshot, n: nat): seq<Snapshot> {
    seq(n, _ => t)
  }

  predicate Complete(t: Snapshot) {
    forall id <- t :: IsWhole(t, id)
  }

  /** Main result: on a fixed table of `count` rows above the start, a run is over
      after exactly as many queries as it takes full pages to pass them, plus one. */
  lemma {:induction false} FixedTableTerminates(t: Snapshot, lastId: int, n: nat)
    requires Complete(t)
    ensures var r, count := RunFrom(Same(t, n), lastId), |Above(t.Keys, lastId)|;
            && r.status != Aborted
            && (r.status == Finished <==> n > 0 && 100 * (n - 1) >= count)
            && (r.status == Finished ==> |r.sent| == count)
    decreases n
  {
    if n > 0 {
      var rows := CompletePage(t, lastId);
      assert Same(t, n)[0] == t && Same(t, n)[1..] == Same(t, n - 1);
      if rows != [] {
        FixedTableTerminates(t, rows[|rows| - 1].id, n - 1);
      }
    }
  }

  /** Every podcast above the start has a content and a location. */
  predicate ReadableAbove(t: Snapshot, lastId: int) {
    forall id <- t :: id > lastId ==> IsWhole(t, id)
  }

  /** Main result: on any fixed table, whatever its rows lack, enough queries end the
      run. It finishes exactly when every podcast above the start can be read, and
      otherwise stops with an error. */
  lemma {:induction false} FixedTableEnds(t: Snapshot, lastId: int, n: nat)
    requires n > 0 && 100 * (n - 1) >= |Above(t.Keys, lastId)|
    ensures RunFrom(Same(t, n), lastId).status == if ReadableAbove(t, lastId) then Finished else Aborted
    decreases n
  {
    assert Same(t, n)[0] == t && Same(t, n)[1..] == Same(t, n - 1);
    SelectedOutcome(t, lastId);
    var rows := SelectPodcasts(t, lastId);
    if rows.Some? && rows.value != [] {
      FixedTableEnds(t, rows.value[|rows.value| - 1].id, n - 1);
    }
  }

  /** A page cannot be read only when some podcast above its start cannot, and is
      empty only when there is none; otherwise what is above its end is left. */
  ghost predicate Outcome(t: Snapshot, lastId: int, limit: nat, rows: Option<seq<PodcastTuple>>) {
    match rows
    case None => !ReadableAbove(t, lastId)
    case Some(read) =>
      if read == [] then ReadableAbove(t, lastId)
      else
        var last := read[|read| - 1].id;
        && (ReadableAbove(t, lastId) <==> ReadableAbove(t, last))
        && |read| + |Above(t.Keys, last)| == |Above(t.Keys, lastId)|
        && (|read| == limit || |Above(t.Keys, last)| == 0)
  }

  lemma PageOutcome(t: Snapshot, lastId: int, limit: nat, page: seq<int>)
    requires limit > 0 && page == PageIds(t.Keys, lastId, limit) && forall id <- page :: id in t
    ensures Outcome(t, lastId, limit, ReadRows(t, page))
  {
    PageTakesLowest(t.Keys, lastId, limit);
    RowsRead(t, page);
    var rows := ReadRows(t, page);
    if rows.Some? {
      PageIsReadable(t, page, rows.value);
      if rows.value != [] {
        var last := rows.value[|rows.value| - 1].id;
        assert last == Ids(rows.value)[|rows.value| - 1] == LastOr(page, lastId);
        ReadablePassesPage(t, lastId, last, page);
      } else {
        assert forall id <- t :: id > lastId ==> id in Above(t.Keys, lastId);
      }
    }
  }

  lemma SelectedOutcome(t: Snapshot, lastId: int)
    ensures Outcome(t, lastId, 100, SelectPodcasts(t, lastId))
  {
    PageTakesLowest(t.Keys, lastId, PAGE_SIZE);
    PageOutcome(t, lastId, PAGE_SIZE, PageIds(t.Keys, lastId, PAGE_SIZE));
  }

  lemma ReadablePassesPage(t: Snapshot, lastId: int, last: int, page: seq<int>)
    requires lastId <= last
    requires forall id :: id in page <==> id in t && lastId < id <= last
    requires forall id <- page :: id in t && IsWhole(t, id)
    ensures ReadableAbove(t, lastId) <==> ReadableAbove(t, last)
  {
    forall id | id in t && lastId < id <= last ensures IsWhole(t, id) {
      assert id in page;
    }
  }

  lemma PageIsReadable(t: Snapshot, page: seq<int>, rows: seq<PodcastTuple>)
    requires (forall id <- page :: id in t) && ReadRows(t, page) == Some(rows)
    ensures |rows| == |page| && Ids(rows) == page && forall id <- page :: IsWhole(t, id)
  {
    RowsRead(t, page);
    forall id | id in page
      ensures IsWhole(t, id)
    {
      var i :| 0 <= i < |page| && page[i] == id;
      assert rows[i] in rows && rows[i].id == Ids(rows)[i];
    }
  }

  lemma CompletePage(t: Snapshot, startId: int) returns (rows: seq<PodcastTuple>)
    requires Complete(t)
    ensures SelectPodcasts(t, startId) == Some(rows)
    ensures rows == [] ==> |Above(t.Keys, startId)| == 0
    ensures rows != [] ==>
              var left := |Above(t.Keys, rows[|rows| - 1].id)|;
              && |rows| + left == |Above(t.Keys, startId)|
              && (|rows| == PAGE_SIZE || (|rows| < PAGE_SIZE && left == 0))
  {
    var page := PageIds(t.Keys, startId, PAGE_SIZE);
    PageTakesLowest(t.Keys, startId, PAGE_SIZE);
    PageFits(t.Keys, startId, PAGE_SIZE);
    RowsRead(t, page);
    rows := SelectPodcasts(t, startId).value;
    SelectedPage(t, startId, rows);
    assert |rows| == |Ids(rows)| == |page|;
  }

  lemma {:induction false} PageFits(ids: set<int>, after: int, limit: nat)
    ensures |PageIds(ids, after, limit)| <= limit
    decreases limit
  {
    if limit != 0 && Above(ids, after) != {} {
      PageFits(ids, Least(Above(ids, after)), limit - 1);
    }
  }

  /** ... and it has sent exactly the podcasts with positive ids. */
  lemma FixedTableSendsAll(t: Snapshot, n: nat)
    requires Complete(t) && n > 0 && 100 * (n - 1) >= |Above(t.Keys, 0)|
    ensures var r := RunFrom(Same(t, n), 0);
            && r.status == Finished
            && forall id :: id in Ids(r.sent) <==> id in t && id > 0
  {
    var r := RunFrom(Same(t, n), 0);
    FixedTableTerminates(t, 0, n);
    SendsAscending(Same(t, n), 0);
    SendsWhatWasSeen(Same(t, n), 0);
    forall id ensures id in Ids(r.sent) <==> id in t && id > 0 {
      if id in t && id > 0 {
        SendsAllThatStay(Same(t, n), 0, id);
      }
      if id in Ids(r.sent) {
        var i :| 0 <= i < |r.sent| && Ids(r.sent)[i] == id;
        assert r.sent[i] in r.sent;
      }
    }
  }
}
