/** Turning the raw episodes of a feed into rows: validation, and keeping one
    episode for each GUID. */
module EpisodeConversion {
  import opened Wrappers
  import opened FeedParser

  datatype EpisodeRow = EpisodeRow(
    description: Option<string>,
    explicit: Option<bool>,
    guid: string,
    linkUrl: Option<string>,
    mediaType: Option<string>,
    mediaUrl: string,
    podcastId: int,
    publishedAt: int,
    title: string)

  datatype EpisodeOrInvalid = Valid(e: EpisodeRow) | Invalid(message: string, guid: Option<string>)

  /** The error of a date that cannot be parsed. */
  datatype BadDate = BadDate(raw: RawEpisode)

  type DateParser = string -> Option<int>

  function ValidateEpisode(parse: DateParser, raw: RawEpisode, podcastId: int): Result<EpisodeOrInvalid, BadDate> {
    if raw.guid.None? then Ok(Invalid("Missing GUID from episode", None))
    else if raw.mediaUrl.None? then Ok(Invalid("Missing media URL from episode", raw.guid))
    else if raw.publishedAt.None? then Ok(Invalid("Missing publish date from episode", raw.guid))
    else if raw.title.None? then Ok(Invalid("Missing title from episode", raw.guid))
    else
      match parse(raw.publishedAt.value)
      case None => Err(BadDate(raw))
      case Some(publishedAt) =>
        Ok(Valid(EpisodeRow(raw.description, raw.explicit, raw.guid.value, raw.linkUrl, raw.mediaType,
                            raw.mediaUrl.value, podcastId, publishedAt, raw.title.value)))
  }

  function Guids(episodes: seq<EpisodeRow>): set<string> {
    set e | e in episodes :: e.guid
  }

  /** What the loop has kept after all of `raws`. */
  function Converted(parse: DateParser, raws: seq<RawEpisode>, podcastId: int): Result<seq<EpisodeRow>, BadDate> {
    if raws == [] then Ok([])
    else
      var kept :- Converted(parse, raws[..|raws| - 1], podcastId);
      match ValidateEpisode(parse, raws[|raws| - 1], podcastId)
      case Err(e) => Err(e)
      case Ok(Invalid(_, _)) => Ok(kept)
      case Ok(Valid(e)) => if e.guid in Guids(kept) then Ok(kept) else Ok(kept + [e])
  }

  lemma {:induction false} ErrorsComeFirst(parse: DateParser, raws: seq<RawEpisode>, podcastId: int, n: nat)
    requires n <= |raws| && Converted(parse, raws[..n], podcastId).Err?
    ensures Converted(parse, raws, podcastId) == Converted(parse, raws[..n], podcastId)
    decreases |raws|
  {
    if n < |raws| {
      assert raws[..|raws| - 1][..n] == raws[..n];
      ErrorsComeFirst(parse, raws[..|raws| - 1], podcastId, n);
    } else {
      assert raws[..n] == raws;
    }
  }

  method ConvertEpisodes(parse: DateParser, raws: seq<RawEpisode>, podcastId: int)
    returns (r: Result<seq<EpisodeRow>, BadDate>)
    ensures r == Converted(parse, raws, podcastId)
  {
    var guids: set<string> := {};
    var episodes: seq<EpisodeRow> := [];
    for i := 0 to |raws|
      invariant Converted(parse, raws[..i], podcastId) == Ok(episodes)
      invariant guids == Guids(episodes)
    {
      assert raws[..i + 1][..i] == raws[..i];
      match ValidateEpisode(parse, raws[i], podcastId) {
        case Err(e) =>
          ErrorsComeFirst(parse, raws, podcastId, i + 1);
          return Err(e);
        case Ok(Valid(e)) =>
          if e.guid !in guids {
            guids := guids + {e.guid};
            episodes := episodes + [e];
          }
        case Ok(Invalid(_, _)) =>
      }
    }
    assert raws[..|raws|] == raws;
    return Ok(episodes);
  }

  // ---- Which episodes are kept ---------------------------------------------------

  /** The `i`-th raw episode is valid with this GUID. */
  predicate ValidWith(parse: DateParser, raws: seq<RawEpisode>, podcastId: int, i: int, guid: string)
    requires 0 <= i < |raws|
  {
    var v := ValidateEpisode(parse, raws[i], podcastId);
    v.Ok? && v.value.Valid? && v.value.e.guid == guid
  }

  /** It is valid and no earlier valid one shares its GUID. */
  ghost predicate FirstOccurrence(parse: DateParser, raws: seq<RawEpisode>, podcastId: int, i: int)
    requires 0 <= i < |raws|
  {
    var v := ValidateEpisode(parse, raws[i], podcastId);
    && v.Ok? && v.value.Valid?
    && forall j :: 0 <= j < i ==> !ValidWith(parse, raws, podcastId, j, v.value.e.guid)
  }

  /** `at` lists, in ascending order, exactly the first occurrences. */
  ghost predicate ListsFirsts(parse: DateParser, raws: seq<RawEpisode>, podcastId: int, at: seq<nat>) {
    && (forall k :: 0 <= k < |at| ==> at[k] < |raws| && FirstOccurrence(parse, raws, podcastId, at[k]))
    && (forall k, l :: 0 <= k < l < |at| ==> at[k] < at[l])
    && (forall i :: 0 <= i < |raws| && FirstOccurrence(parse, raws, podcastId, i) ==> i in at)
  }

  predicate DistinctGuids(episodes: seq<EpisodeRow>) {
    forall k, l :: 0 <= k < l < |episodes| ==> episodes[k].guid != episodes[l].guid
  }

  lemma FirstsOfPrefix(parse: DateParser, raws: seq<RawEpisode>, podcastId: int, i: int)
    requires 0 <= i < |raws| - 1
    ensures FirstOccurrence(parse, raws, podcastId, i)
            <==> FirstOccurrence(parse, raws[..|raws| - 1], podcastId, i)
  {
    var init := raws[..|raws| - 1];
    assert forall j, g :: 0 <= j <= i ==>
             ValidWith(parse, raws, podcastId, j, g) == ValidWith(parse, init, podcastId, j, g);
  }

  /** Every valid GUID among the raw episodes is kept, and no other. */
  lemma {:induction false} KeptGuids(parse: DateParser, raws: seq<RawEpisode>, podcastId: int, guid: string)
    requires Converted(parse, raws, podcastId).Ok?
    ensures guid in Guids(Converted(parse, raws, podcastId).value)
            <==> exists i :: 0 <= i < |raws| && ValidWith(parse, raws, podcastId, i, guid)
    decreases |raws|
  {
    if raws != [] {
      var n := |raws| - 1;
      var init := raws[..n];
      var kept := Converted(parse, init, podcastId).value;
      KeptGuids(parse, init, podcastId, guid);
      assert forall i :: 0 <= i < n ==>
               ValidWith(parse, raws, podcastId, i, guid) == ValidWith(parse, init, podcastId, i, guid);
      var v := ValidateEpisode(parse, raws[n], podcastId);
      if v.Ok? && v.value.Valid? {
        assert Guids(kept + [v.value.e]) == Guids(kept) + {v.value.e.guid};
        assert ValidWith(parse, raws, podcastId, n, v.value.e.guid);
      }
    }
  }

  lemma FirstsExtend(parse: DateParser, raws: seq<RawEpisode>, podcastId: int, at: seq<nat>)
    requires raws != [] && ListsFirsts(parse, raws[..|raws| - 1], podcastId, at)
    ensures var n: nat := |raws| - 1;
            ListsFirsts(parse, raws, podcastId, if FirstOccurrence(parse, raws, podcastId, n) then at + [n] else at)
  {
    var n: nat := |raws| - 1;
    forall i | 0 <= i < n
      ensures FirstOccurrence(parse, raws, podcastId, i) <==> FirstOccurrence(parse, raws[..n], podcastId, i)
    {
      FirstsOfPrefix(parse, raws, podcastId, i);
    }
    var at' := if FirstOccurrence(parse, raws, podcastId, n) then at + [n] else at;
    forall i | 0 <= i < |raws| && FirstOccurrence(parse, raws, podcastId, i)
      ensures i in at'
    {
      if i < n {
        assert i in at;
      }
    }
  }

  /** The rows kept have pairwise distinct GUIDs. */
  lemma {:induction false} KeptGuidsDiffer(parse: DateParser, raws: seq<RawEpisode>, podcastId: int)
    requires Converted(parse, raws, podcastId).Ok?
    ensures DistinctGuids(Converted(parse, raws, podcastId).value)
    decreases |raws|
  {
    if raws != [] {
      KeptGuidsDiffer(parse, raws[..|raws| - 1], podcastId);
      var kept := Converted(parse, raws[..|raws| - 1], podcastId).value;
      assert forall k :: 0 <= k < |kept| ==> kept[k].guid in Guids(kept);
    }
  }

  /** Row `k` is what the raw episode at `at[k]` validates to. */
  ghost predicate RowsOf(
    parse: DateParser, raws: seq<RawEpisode>, podcastId: int, at: seq<nat>, rows: seq<EpisodeRow>)
  {
    && |rows| == |at|
    && forall k :: 0 <= k < |at| ==>
         at[k] < |raws| && ValidateEpisode(parse, raws[at[k]], podcastId) == Ok(Valid(rows[k]))
  }

  lemma RowsExtend(parse: DateParser, raws: seq<RawEpisode>, podcastId: int, at: seq<nat>, rows: seq<EpisodeRow>)
    requires raws != [] && RowsOf(parse, raws[..|raws| - 1], podcastId, at, rows)
    ensures RowsOf(parse, raws, podcastId, at, rows)
    ensures forall row :: ValidateEpisode(parse, raws[|raws| - 1], podcastId) == Ok(Valid(row)) ==>
                            RowsOf(parse, raws, podcastId, at + [|raws| - 1], rows + [row])
  {
    assert RowsOf(parse, raws, podcastId, at, rows);
  }

  /** Main result: a conversion that succeeds keeps, in feed order, exactly the
      first valid occurrence of each GUID. */
  lemma {:induction false} KeepsFirstOccurrences(parse: DateParser, raws: seq<RawEpisode>, podcastId: int)
    returns (at: seq<nat>)
    requires Converted(parse, raws, podcastId).Ok?
    ensures ListsFirsts(parse, raws, podcastId, at)
    ensures RowsOf(parse, raws, podcastId, at, Converted(parse, raws, podcastId).value)
    decreases |raws|
  {
    at := [];
    if raws != [] {
      var n := |raws| - 1;
      var kept := Converted(parse, raws[..n], podcastId).value;
      at := KeepsFirstOccurrences(parse, raws[..n], podcastId);
      FirstsExtend(parse, raws, podcastId, at);
      RowsExtend(parse, raws, podcastId, at, kept);
      LastIsFirst(parse, raws, podcastId, kept);
      if FirstOccurrence(parse, raws, podcastId, n) {
        at := at + [n];
      }
    }
  }

  lemma LastIsFirst(parse: DateParser, raws: seq<RawEpisode>, podcastId: int, kept: seq<EpisodeRow>)
    requires raws != [] && Converted(parse, raws[..|raws| - 1], podcastId) == Ok(kept)
    ensures var v := ValidateEpisode(parse, raws[|raws| - 1], podcastId);
            FirstOccurrence(parse, raws, podcastId, |raws| - 1)
            <==> v.Ok? && v.value.Valid? && v.value.e.guid !in Guids(kept)
  {
    var n := |raws| - 1;
    var v := ValidateEpisode(parse, raws[n], podcastId);
    if v.Ok? && v.value.Valid? {
      var guid := v.value.e.guid;
      KeptGuids(parse, raws[..n], podcastId, guid);
      assert forall i :: 0 <= i < n ==>
               ValidWith(parse, raws, podcastId, i, guid) == ValidWith(parse, raws[..n], podcastId, i, guid);
    }
  }

  function CountInvalid(parse: DateParser, raws: seq<RawEpisode>, podcastId: int): nat {
    if raws == [] then 0
    else
      var v := ValidateEpisode(parse, raws[|raws| - 1], podcastId);
      CountInvalid(parse, raws[..|raws| - 1], podcastId) + if v.Ok? && v.value.Invalid? then 1 else 0
  }

  /** Valid raw episodes whose GUID an earlier valid one has. */
  ghost function CountDuplicates(parse: DateParser, raws: seq<RawEpisode>, podcastId: int): nat {
    if raws == [] then 0
    else
      var v := ValidateEpisode(parse, raws[|raws| - 1], podcastId);
      CountDuplicates(parse, raws[..|raws| - 1], podcastId)
      + if v.Ok? && v.value.Valid? && !FirstOccurrence(parse, raws, podcastId, |raws| - 1) then 1 else 0
  }

  /** No candidate is unaccounted for. */
  lemma {:induction false} CandidatesAddUp(parse: DateParser, raws: seq<RawEpisode>, podcastId: int)
    requires Converted(parse, raws, podcastId).Ok?
    ensures |Converted(parse, raws, podcastId).value|
            + CountDuplicates(parse, raws, podcastId) + CountInvalid(parse, raws, podcastId) == |raws|
    decreases |raws|
  {
    if raws != [] {
      CandidatesAddUp(parse, raws[..|raws| - 1], podcastId);
      LastIsFirst(parse, raws, podcastId, Converted(parse, raws[..|raws| - 1], podcastId).value);
    }
  }

  /** A conversion fails exactly on a date that cannot be parsed in an episode
      that lacks nothing. */
  lemma {:induction false} FailsOnlyOnDates(parse: DateParser, raws: seq<RawEpisode>, podcastId: int)
    ensures Converted(parse, raws, podcastId).Err?
            <==> exists raw :: raw in raws && ValidateEpisode(parse, raw, podcastId).Err?
    decreases |raws|
  {
    if raws != [] {
      var init := raws[..|raws| - 1];
      FailsOnlyOnDates(parse, init, podcastId);
      assert raws == init + [raws[|raws| - 1]];
    }
  }

  /** The podcast a row is for has no bearing on which are kept. */
  lemma {:induction false} GuidsForAnyPodcast(parse: DateParser, raws: seq<RawEpisode>, p: int, q: int)
    ensures Converted(parse, raws, p).Ok? == Converted(parse, raws, q).Ok?
    ensures Converted(parse, raws, p).Ok? ==>
              Guids(Converted(parse, raws, p).value) == Guids(Converted(parse, raws, q).value)
    decreases |raws|
  {
    if raws != [] {
      var n := |raws| - 1;
      GuidsForAnyPodcast(parse, raws[..n], p, q);
      var v, w := ValidateEpisode(parse, raws[n], p), ValidateEpisode(parse, raws[n], q);
      if Converted(parse, raws, p).Ok? && v.value.Valid? {
        var kept, kept' := Converted(parse, raws[..n], p).value, Converted(parse, raws[..n], q).value;
        assert Guids(kept + [v.value.e]) == Guids(kept) + {v.value.e.guid};
        assert Guids(kept' + [w.value.e]) == Guids(kept') + {v.value.e.guid};
      }
    }
  }
}
