/** The tables the feed mediators write, each a map from row id to row, and the
    constraints their migrations declare. */
module Schema {
  import opened Wrappers
  import opened EpisodeConversion

  datatype Podcast = Podcast(
    imageUrl: Option<string>,
    language: Option<string>,
    lastRetrievedAt: int,
    linkUrl: Option<string>,
    title: string,
    description: Option<string>)

  datatype Location = Location(feedUrl: string, podcastId: int, firstRetrievedAt: int, lastRetrievedAt: int)

  /** The hash of a response body. Two bodies share it only when they are equal. */
  datatype Digest = Sha256(body: Bytes)

  /** The stored body is what gunzipping the column gives. */
  datatype Content = Content(podcastId: int, hash: Digest, body: Bytes, retrievedAt: int)

  datatype ExceptionRow = ExceptionRow(errors: seq<string>, occurredAt: int)

  datatype DirectoryPodcast = DirectoryPodcast(
    directoryId: int,
    feedUrl: string,
    podcastId: Option<int>,
    title: string,
    vendorId: string,
    imageUrl: Option<string>)

  /** The two exception tables hold one row an owner, so the owner's id is the key. */
  datatype Tables = Tables(
    podcasts: map<int, Podcast>,
    locations: map<int, Location>,
    contents: map<int, Content>,
    episodes: map<int, EpisodeRow>,
    podcastExceptions: map<int, ExceptionRow>,
    directoryPodcasts: map<int, DirectoryPodcast>,
    directoryExceptions: map<int, ExceptionRow>)

  /** A database session: statements change what it sees in place. */
  class Connection {
    var tables: Tables

    constructor (tables: Tables)
      ensures this.tables == tables
    {
      this.tables := tables;
    }
  }

  // ---- CHECK constraints ---------------------------------------------------------

  predicate AtMost(s: Option<string>, limit: nat) {
    s.Some? ==> |s.value| <= limit
  }

  predicate PodcastFits(p: Podcast) {
    && AtMost(p.imageUrl, 500) && AtMost(p.language, 10) && AtMost(p.linkUrl, 500)
    && |p.title| <= 200 && AtMost(p.description, 2000)
  }

  predicate EpisodeFits(e: EpisodeRow) {
    && AtMost(e.description, 20000) && |e.guid| <= 200 && AtMost(e.linkUrl, 500)
    && AtMost(e.mediaType, 100) && |e.mediaUrl| <= 500 && |e.title| <= 400
  }

  predicate DirectoryPodcastFits(p: DirectoryPodcast) {
    |p.feedUrl| <= URL_LIMIT && |p.title| <= 500 && |p.vendorId| <= 200 && AtMost(p.imageUrl, 500)
  }

  const URL_LIMIT := 500
  const CONTENT_LIMIT := 1000000

  // ---- Look-ups --------------------------------------------------------------------

  function LocationsAt(locations: map<int, Location>, url: string): set<int> {
    set id | id in locations && locations[id].feedUrl == url
  }

  function LocationsOf(locations: map<int, Location>, podcastId: int): set<int> {
    set id | id in locations && locations[id].podcastId == podcastId
  }

  function ContentsAt(contents: map<int, Content>, podcastId: int, hash: Digest): set<int> {
    set id | id in contents && contents[id].podcastId == podcastId && contents[id].hash == hash
  }

  function EpisodesAt(episodes: map<int, EpisodeRow>, podcastId: int, guid: string): set<int> {
    set id | id in episodes && episodes[id].podcastId == podcastId && episodes[id].guid == guid
  }

  /** The GUIDs stored for a podcast. */
  function PresentGuids(episodes: map<int, EpisodeRow>, podcastId: int): set<string> {
    set id | id in episodes && episodes[id].podcastId == podcastId :: episodes[id].guid
  }

  function VendorsAt(directoryPodcasts: map<int, DirectoryPodcast>, directoryId: int, vendorId: string): set<int> {
    set id | id in directoryPodcasts && directoryPodcasts[id].directoryId == directoryId
             && directoryPodcasts[id].vendorId == vendorId
  }

  // ---- Unique indexes and foreign keys ---------------------------------------------

  ghost predicate UrlsUnique(locations: map<int, Location>) {
    forall i, j :: i in locations && j in locations && locations[i].feedUrl == locations[j].feedUrl ==> i == j
  }

  ghost predicate ContentsUnique(contents: map<int, Content>) {
    forall i, j :: i in contents && j in contents && contents[i].podcastId == contents[j].podcastId
                   && contents[i].hash == contents[j].hash
                   ==> i == j
  }

  ghost predicate EpisodesUnique(episodes: map<int, EpisodeRow>) {
    forall i, j :: i in episodes && j in episodes && episodes[i].podcastId == episodes[j].podcastId
                   && episodes[i].guid == episodes[j].guid
                   ==> i == j
  }

  ghost predicate Unique(t: Tables) {
    UrlsUnique(t.locations) && ContentsUnique(t.contents) && EpisodesUnique(t.episodes)
  }

  ghost predicate LocationsRefer(locations: map<int, Location>, podcasts: map<int, Podcast>) {
    forall id :: id in locations ==> locations[id].podcastId in podcasts
  }

  ghost predicate ContentsRefer(contents: map<int, Content>, podcasts: map<int, Podcast>) {
    forall id :: id in contents ==> contents[id].podcastId in podcasts
  }

  ghost predicate EpisodesRefer(episodes: map<int, EpisodeRow>, podcasts: map<int, Podcast>) {
    forall id :: id in episodes ==> episodes[id].podcastId in podcasts
  }

  ghost predicate DirectoryRefers(directoryPodcasts: map<int, DirectoryPodcast>, podcasts: map<int, Podcast>) {
    forall id :: id in directoryPodcasts && directoryPodcasts[id].podcastId.Some?
                 ==> directoryPodcasts[id].podcastId.value in podcasts
  }

  ghost predicate Refers(t: Tables) {
    && LocationsRefer(t.locations, t.podcasts) && ContentsRefer(t.contents, t.podcasts)
    && EpisodesRefer(t.episodes, t.podcasts)
    && t.podcastExceptions.Keys <= t.podcasts.Keys
    && DirectoryRefers(t.directoryPodcasts, t.podcasts)
    && t.directoryExceptions.Keys <= t.directoryPodcasts.Keys
  }
}
