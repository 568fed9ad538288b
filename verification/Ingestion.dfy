/** From the document tree of a feed to the rows a run stores: the parser, the
    conversion and the upserts taken together. */
module Ingestion {
  import opened Wrappers
  import opened Xml
  import opened FeedParser
  import opened EpisodeConversion
  import opened FeedErrors
  import opened Schema
  import opened PodcastUpdater
  import opened PodcastRuns
  import opened PodcastSuccess
  import opened PodcastReruns

  /** The direct `<item>` elements of a channel. */
  function ItemNodes(channel: seq<Node>): (items: seq<Node>)
    ensures forall n <- items :: n.Element?
  {
    if channel == [] then []
    else (if channel[0].Element? && channel[0].name == "item" then [channel[0]] else []) + ItemNodes(channel[1..])
  }

  lemma {:induction false} ItemNodesAreItems(rules: TextRules, channel: seq<Node>)
    ensures |DirectItems(rules, channel)| == |ItemNodes(channel)|
    ensures forall i :: 0 <= i < |ItemNodes(channel)| ==>
              DirectItems(rules, channel)[i] == ItemIn(rules, ItemNodes(channel)[i].children, EMPTY_EPISODE)
    decreases |channel|
  {
    if channel != [] {
      var n, rest := channel[0], channel[1..];
      ItemNodesAreItems(rules, rest);
      var outcomes, nodes := DirectItems(rules, rest), ItemNodes(rest);
      if n.Element? && n.name == "item" {
        assert DirectItems(rules, channel) == [ItemIn(rules, n.children, EMPTY_EPISODE)] + outcomes;
        assert ItemNodes(channel) == [n] + nodes;
      } else {
        assert DirectItems(rules, channel) == outcomes && ItemNodes(channel) == nodes;
      }
    }
  }

  /** A podcast row says what the channel's own children say. */
  ghost predicate PodcastShows(rules: TextRules, channel: seq<Node>, p: Podcast) {
    && Some(p.title) == DirectText(rules, channel, "title", Verbatim, None)
    && p.description == DirectText(rules, channel, "description", Verbatim, None)
    && p.language == DirectText(rules, channel, "language", Verbatim, None)
    && p.linkUrl == DirectText(rules, channel, "link", Verbatim, None)
    && p.imageUrl == DirectAttribute(rules, channel, IsThumbnail, "url", None)
  }

  /** An episode row says what the item's own children say. */
  ghost predicate EpisodeShows(env: Env, item: seq<Node>, podcastId: int, e: EpisodeRow) {
    && e.podcastId == podcastId
    && Some(e.guid) == DirectText(env.rules, item, "guid", Verbatim, None)
    && Some(e.title) == DirectText(env.rules, item, "title", Verbatim, None)
    && Some(e.mediaUrl) == DirectAttribute(env.rules, item, IsEpisodeMedia, "url", None)
    && e.mediaType == DirectAttribute(env.rules, item, IsEpisodeMedia, "type", None)
    && e.description == DirectText(env.rules, item, "description", env.rules.sanitize, None)
    && e.explicit == DirectText(env.rules, item, "itunes:explicit", IsYes, None)
    && e.linkUrl == DirectText(env.rules, item, "link", Verbatim, None)
    && PublishedAt(env, item) == Some(e.publishedAt)
  }

  function PublishedAt(env: Env, item: seq<Node>): Option<int> {
    match DirectText(env.rules, item, "pubDate", Verbatim, None)
    case None => None
    case Some(text) => env.parseDate(text)
  }

  /** An item with everything a row needs. */
  ghost predicate Complete(env: Env, item: seq<Node>) {
    && DirectText(env.rules, item, "guid", Verbatim, None).Some?
    && DirectText(env.rules, item, "title", Verbatim, None).Some?
    && DirectAttribute(env.rules, item, IsEpisodeMedia, "url", None).Some?
    && DirectText(env.rules, item, "pubDate", Verbatim, None).Some?
  }

  lemma ItemBecomesRow(env: Env, item: seq<Node>, raw: RawEpisode, podcastId: int)
    requires ItemIn(env.rules, item, EMPTY_EPISODE) == Ok(raw)
    ensures var v := ValidateEpisode(env.parseDate, raw, podcastId);
            && (Complete(env, item) <==> v.Err? || v.value.Valid?)
            && (v.Err? ==> PublishedAt(env, item) == None)
            && (v.Ok? && v.value.Valid? ==> EpisodeShows(env, item, podcastId, v.value.e))
  {
    ItemFieldsAreDirectTexts(env.rules, item, EMPTY_EPISODE, raw);
    ItemMediaAreDirectAttributes(env.rules, item, EMPTY_EPISODE, raw);
  }

  /** The body is the text of this well-nested document. */
  ghost predicate Reads(env: Env, body: Bytes, document: seq<Node>) {
    env.decode(body).Some? && env.tokenize(env.decode(body).value) == FlattenAll(document)
  }

  lemma PodcastFromChannel(env: Env, f: Fetched, now: int, channel: seq<Node>)
    requires ChannelIn(env.rules, channel, EMPTY_FEED) == Ok(f.feed)
    requires ConvertPodcast(f.feed.podcast, now) == Ok(f.podcast)
    ensures PodcastShows(env.rules, channel, f.podcast)
  {
    ChannelFieldsAreDirectTexts(env.rules, channel, EMPTY_FEED, f.feed);
    ChannelImageIsDirectAttribute(env.rules, channel, EMPTY_FEED, f.feed);
  }

  /** The raw episodes are the channel's items, in order. */
  lemma EpisodesFromItems(rules: TextRules, channel: seq<Node>, feed: Feed)
    requires ChannelIn(rules, channel, EMPTY_FEED) == Ok(feed)
    ensures |feed.episodes| == |ItemNodes(channel)|
    ensures forall i :: 0 <= i < |feed.episodes| ==>
              ItemIn(rules, ItemNodes(channel)[i].children, EMPTY_EPISODE) == Ok(feed.episodes[i])
  {
    ChannelEpisodesAreDirectItems(rules, channel, EMPTY_FEED, feed);
    ItemNodesAreItems(rules, channel);
    assert Succeeded(EMPTY_FEED.episodes) + DirectItems(rules, channel) == DirectItems(rules, channel);
    forall i | 0 <= i < |feed.episodes|
      ensures ItemIn(rules, ItemNodes(channel)[i].children, EMPTY_EPISODE) == Ok(feed.episodes[i])
    {
      assert Succeeded(feed.episodes)[i] == DirectItems(rules, channel)[i];
    }
  }

  /** An item that is complete and shares its GUID with no complete one before it. */
  ghost predicate FirstOfItsGuid(env: Env, items: seq<Node>, i: nat)
    requires i < |items| && forall n <- items :: n.Element?
  {
    && Complete(env, items[i].children)
    && forall j :: 0 <= j < i && Complete(env, items[j].children) ==>
         DirectText(env.rules, items[j].children, "guid", Verbatim, None) !=
         DirectText(env.rules, items[i].children, "guid", Verbatim, None)
  }

  /** Main result: a full run that succeeds on a well-nested document stores the
      channel's own texts in the podcast's row, and one episode row for each item
      that is complete and the first of its GUID, in order, with the item's own
      texts and attributes. `at` lists those items. */
  lemma FullRunStoresTheTree(env: Env, t: Tables, call: Call, document: seq<Node>)
    returns (channel: seq<Node>, at: seq<nat>)
    requires Sound(env, t) && Fresh(t, call)
    requires RunOutcome(env, t, call).result.Ok? && RunOutcome(env, t, call).result.value.episodes.Some?
    requires Fetch(env, t.locations, call).Ok? ==> Reads(env, Fetch(env, t.locations, call).value.body, document)
    ensures ChannelOf(document) == Some(channel)
    ensures var out := RunOutcome(env, t, call);
            var r := out.result.value;
            && r.podcastId in out.tables.podcasts && PodcastShows(env.rules, channel, out.tables.podcasts[r.podcastId])
            && |r.episodes.value| == |at|
            && forall k :: 0 <= k < |at| ==>
                 && at[k] < |ItemNodes(channel)| && r.episodes.value[k] in out.tables.episodes
                 && EpisodeShows(env, ItemNodes(channel)[at[k]].children, r.podcastId,
                                 out.tables.episodes[r.episodes.value[k]])
    ensures forall k, l :: 0 <= k < l < |at| ==> at[k] < at[l]
    ensures forall i :: 0 <= i < |ItemNodes(channel)| ==> (FirstOfItsGuid(env, ItemNodes(channel), i) <==> i in at)
  {
    FullRunStoresTheFeed(env, t, call);
    FetchedIsRead(env, t.locations, call);
    var f := Fetch(env, t.locations, call).value;
    ParserReadsChannel(env.rules, document);
    channel := ChannelOf(document).value;
    PodcastFromChannel(env, f, call.times.podcast, channel);
    at := StoredRowsShowItems(env, RunOutcome(env, t, call).tables, f, RunOutcome(env, t, call).result.value, channel);
  }

  lemma StoredRowsShowItems(env: Env, t: Tables, f: Fetched, r: RunResult, channel: seq<Node>)
    returns (at: seq<nat>)
    requires ChannelIn(env.rules, channel, EMPTY_FEED) == Ok(f.feed) && EpisodesStored(env, t, f, r)
    ensures |r.episodes.value| == |at|
    ensures forall k :: 0 <= k < |at| ==>
              && at[k] < |ItemNodes(channel)| && r.episodes.value[k] in t.episodes
              && EpisodeShows(env, ItemNodes(channel)[at[k]].children, r.podcastId, t.episodes[r.episodes.value[k]])
    ensures forall k, l :: 0 <= k < l < |at| ==> at[k] < at[l]
    ensures forall i :: 0 <= i < |ItemNodes(channel)| ==> (FirstOfItsGuid(env, ItemNodes(channel), i) <==> i in at)
  {
    EpisodesFromItems(env.rules, channel, f.feed);
    at := KeepsFirstOccurrences(env.parseDate, f.feed.episodes, r.podcastId);
    RowsShowItems(env, channel, f.feed, r.podcastId, at);
    forall i: nat | i < |ItemNodes(channel)|
      ensures FirstOfItsGuid(env, ItemNodes(channel), i) <==> i in at
    {
      FirstsAreFirsts(env, channel, f.feed, r.podcastId, i);
    }
  }

  lemma RowsShowItems(env: Env, channel: seq<Node>, feed: Feed, podcastId: int, at: seq<nat>)
    requires ChannelIn(env.rules, channel, EMPTY_FEED) == Ok(feed)
    requires Converted(env.parseDate, feed.episodes, podcastId).Ok?
    requires var rows := Converted(env.parseDate, feed.episodes, podcastId).value;
             RowsOf(env.parseDate, feed.episodes, podcastId, at, rows)
    ensures var rows := Converted(env.parseDate, feed.episodes, podcastId).value;
            && |rows| == |at|
            && forall k :: 0 <= k < |at| ==>
                 && at[k] < |ItemNodes(channel)|
                 && EpisodeShows(env, ItemNodes(channel)[at[k]].children, podcastId, rows[k])
  {
    EpisodesFromItems(env.rules, channel, feed);
    var rows := Converted(env.parseDate, feed.episodes, podcastId).value;
    forall k | 0 <= k < |at|
      ensures EpisodeShows(env, ItemNodes(channel)[at[k]].children, podcastId, rows[k])
    {
      ItemBecomesRow(env, ItemNodes(channel)[at[k]].children, feed.episodes[at[k]], podcastId);
    }
  }

  /** A raw episode is valid with a GUID when its item is complete and says so. */
  lemma ValidWithItem(env: Env, item: seq<Node>, raws: seq<RawEpisode>, podcastId: int, j: nat, guid: string)
    requires j < |raws| && ItemIn(env.rules, item, EMPTY_EPISODE) == Ok(raws[j])
    requires ValidateEpisode(env.parseDate, raws[j], podcastId).Ok?
    ensures ValidWith(env.parseDate, raws, podcastId, j, guid) <==>
            Complete(env, item) && DirectText(env.rules, item, "guid", Verbatim, None) == Some(guid)
  {
    ItemBecomesRow(env, item, raws[j], podcastId);
  }

  /** When every date parses, the first valid occurrence of a GUID is the first
      complete item with it. */
  lemma FirstsAreFirsts(env: Env, channel: seq<Node>, feed: Feed, podcastId: int, i: nat)
    requires ChannelIn(env.rules, channel, EMPTY_FEED) == Ok(feed) && i < |ItemNodes(channel)|
    requires Converted(env.parseDate, feed.episodes, podcastId).Ok?
    ensures |feed.episodes| == |ItemNodes(channel)|
    ensures FirstOfItsGuid(env, ItemNodes(channel), i) <==>
            FirstOccurrence(env.parseDate, feed.episodes, podcastId, i)
  {
    EpisodesFromItems(env.rules, channel, feed);
    FailsOnlyOnDates(env.parseDate, feed.episodes, podcastId);
    var items, raws := ItemNodes(channel), feed.episodes;
    assert raws[i] in raws;
    ItemBecomesRow(env, items[i].children, raws[i], podcastId);
    var v := ValidateEpisode(env.parseDate, raws[i], podcastId).value;
    if v.Valid? {
      forall j: nat | j < i
        ensures ValidWith(env.parseDate, raws, podcastId, j, v.e.guid) <==>
                Complete(env, items[j].children) &&
                DirectText(env.rules, items[j].children, "guid", Verbatim, None) == Some(v.e.guid)
      {
        assert raws[j] in raws;
        ValidWithItem(env, items[j].children, raws, podcastId, j, v.e.guid);
      }
    }
  }

  // ---- When a run on a document succeeds -----------------------------------------------------

  /** Every item that is complete has a date that parses. */
  ghost predicate DatesParse(env: Env, channel: seq<Node>) {
    forall n <- ItemNodes(channel) :: Complete(env, n.children) ==> PublishedAt(env, n.children).Some?
  }

  lemma ItemDate(env: Env, item: seq<Node>, raw: RawEpisode)
    requires ItemIn(env.rules, item, EMPTY_EPISODE) == Ok(raw)
    ensures DateParses(env.parseDate, raw) <==> (Complete(env, item) ==> PublishedAt(env, item).Some?)
  {
    ItemFieldsAreDirectTexts(env.rules, item, EMPTY_EPISODE, raw);
    ItemMediaAreDirectAttributes(env.rules, item, EMPTY_EPISODE, raw);
  }

  lemma ItemDates(env: Env, channel: seq<Node>, feed: Feed)
    requires ChannelIn(env.rules, channel, EMPTY_FEED) == Ok(feed)
    ensures (forall raw <- feed.episodes :: DateParses(env.parseDate, raw)) <==> DatesParse(env, channel)
  {
    EpisodesFromItems(env.rules, channel, feed);
    var items, raws := ItemNodes(channel), feed.episodes;
    forall i | 0 <= i < |raws|
      ensures items[i] in items && raws[i] in raws
      ensures DateParses(env.parseDate, raws[i]) <==>
              (Complete(env, items[i].children) ==> PublishedAt(env, items[i].children).Some?)
    {
      ItemDate(env, items[i].children, raws[i]);
    }
  }

  /** A document that can be read as a feed with a title. */
  predicate Presentable(document: seq<Node>) {
    var channel := ChannelOf(document);
    channel.Some? && ChannelReadable(channel.value) && HasChild(channel.value, "title")
  }

  lemma PresentableIsReadable(env: Env, body: Bytes, document: seq<Node>)
    requires Reads(env, body, document)
    ensures Readable(env, body) <==> Presentable(document)
  {
    FeedFailsExactly(env.rules, document);
    if ChannelOf(document).Some? {
      ParserReadsChannel(env.rules, document);
      if ChannelReadable(ChannelOf(document).value) {
        TitleIsThere(env.rules, ChannelOf(document).value);
      }
    }
  }

  /** The look-ups go through and the latest URL answers 200. */
  predicate Answered(locations: map<int, Location>, call: Call) {
    && QueryGivenUrl !in call.faults
    && (QueryPodcast(locations, call.feedUrl).Some? ==> SelectLatest !in call.faults)
    && var response := call.fetch(UrlToFetch(locations, call));
       response.Some? && response.value.status == 200
  }

  /** The content fits, every complete item has a date that parses, and every row that
      is kept fits. */
  ghost predicate Storable(env: Env, call: Call, podcastId: int, f: Fetched, channel: seq<Node>) {
    && WriteContent !in call.faults && WriteEpisodes !in call.faults && RemoveException !in call.faults
    && env.gzipLength(f.body) <= 1000000
    && DatesParse(env, channel)
    && (var converted := Converted(env.parseDate, f.feed.episodes, podcastId);
        converted.Ok? ==> RowsFit(converted.value))
  }

  /** Every condition of a successful run on a document, each read off the document, the
      tables and the call. */
  ghost predicate RunnableOn(env: Env, t: Tables, call: Call, document: seq<Node>)
    requires Answered(t.locations, call)
    requires Reads(env, call.fetch(UrlToFetch(t.locations, call)).value.body, document)
  {
    && Begin !in call.faults && Commit !in call.faults
    && Presentable(document)
    && Readable(env, call.fetch(UrlToFetch(t.locations, call)).value.body)
    && var f := FetchedBy(env, t.locations, call);
       var target := Target(t, call, f.url);
       && Placeable(call, f)
       && (!call.disableShortcut ==> CountContents !in call.faults)
       && ((!call.disableShortcut && IsStored(t, target, f.body))
           || Storable(env, call, target, f, ChannelOf(document).value))
  }

  /** Main result: a run whose response is a well-nested document succeeds if and only if
      the document is presentable and the rest can be placed and stored. */
  lemma RunSucceedsOnDocument(env: Env, t: Tables, call: Call, document: seq<Node>)
    requires Sound(env, t) && Fresh(t, call)
    requires Answered(t.locations, call)
    requires Reads(env, call.fetch(UrlToFetch(t.locations, call)).value.body, document)
    ensures RunOutcome(env, t, call).result.Ok? <==> RunnableOn(env, t, call, document)
    ensures Presentable(document) <==> Readable(env, call.fetch(UrlToFetch(t.locations, call)).value.body)
  {
    var body := call.fetch(UrlToFetch(t.locations, call)).value.body;
    PresentableIsReadable(env, body, document);
    RunSucceedsExactly(env, t, call);
    if Presentable(document) {
      ParserReadsChannel(env.rules, document);
      ItemDates(env, ChannelOf(document).value, FetchedBy(env, t.locations, call).feed);
    }
  }

  /** Without an answer a run never succeeds. */
  lemma UnansweredFails(env: Env, t: Tables, call: Call)
    requires Sound(env, t) && Fresh(t, call) && !Answered(t.locations, call)
    ensures RunOutcome(env, t, call).result.Err?
  {
    RunSucceedsExactly(env, t, call);
  }
}
