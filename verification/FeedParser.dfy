/** XML as the feed parser meets it: a flat stream of events, and the document
    tree that a well-nested stream comes from. */
module Xml {
  import opened Wrappers

  /** One attribute as an unchecked attribute iterator yields it. `value` is
      `None` when unescaping or decoding it fails. */
  datatype Attribute = Malformed | Attribute(key: string, value: Option<string>)

  /** `Misc` stands for comments, declarations, processing instructions and
      doctypes. End of file is the end of the stream. */
  datatype Event =
    | Start(name: string, attributes: seq<Attribute>)
    | End(name: string)
    | Text(text: string)
    | CData(text: string)
    | Misc

  datatype Node =
    | Element(name: string, attributes: seq<Attribute>, children: seq<Node>)
    | TextNode(text: string)
    | CDataNode(text: string)
    | MiscNode

  function Flatten(n: Node): seq<Event> {
    match n
    case Element(name, attributes, children) =>
      [Start(name, attributes)] + FlattenAll(children) + [End(name)]
    case TextNode(t) => [Text(t)]
    case CDataNode(t) => [CData(t)]
    case MiscNode => [Misc]
  }

  function FlattenAll(ns: seq<Node>): seq<Event> {
    if ns == [] then [] else Flatten(ns[0]) + FlattenAll(ns[1..])
  }

  /** The event reader. It only ever moves forward. */
  class Reader {
    var remaining: seq<Event>

    constructor (events: seq<Event>)
      ensures remaining == events
    {
      remaining := events;
    }

    /** The next event, or `None` at the end of the file. */
    method ReadEvent() returns (e: Option<Event>)
      modifies this
      ensures old(remaining) == [] ==> e == None && remaining == []
      ensures old(remaining) != [] ==> e == Some(old(remaining)[0]) && remaining == old(remaining)[1..]
    {
      if remaining == [] {
        return None;
      }
      e := Some(remaining[0]);
      remaining := remaining[1..];
    }
  }
}

/** The recursive-descent feed parser. Every `...From` function says what a
    parser makes of an arbitrary stream, truncated and badly nested ones
    included, and where it leaves the reader; the methods are the parsers
    themselves. Every `...In` function reads a document tree instead. */
module FeedParser {
  import opened Wrappers
  import opened Xml

  /** String functions the parser calls but does not define. */
  datatype TextRules = TextRules(trim: string -> string, sanitize: string -> string)

  datatype RawEpisode = RawEpisode(
    description: Option<string>,
    explicit: Option<bool>,
    guid: Option<string>,
    linkUrl: Option<string>,
    mediaType: Option<string>,
    mediaUrl: Option<string>,
    publishedAt: Option<string>,
    title: Option<string>)

  datatype RawPodcast = RawPodcast(
    description: Option<string>,
    imageUrl: Option<string>,
    language: Option<string>,
    linkUrl: Option<string>,
    title: Option<string>)

  datatype Feed = Feed(podcast: RawPodcast, episodes: seq<RawEpisode>)

  const EMPTY_EPISODE := RawEpisode(None, None, None, None, None, None, None, None)
  const EMPTY_FEED := Feed(RawPodcast(None, None, None, None, None), [])

  datatype Error =
    | NoRssTag
    | NoChannelTag
    | NoContentInTag
    | BadAttribute
    | UnexpectedEof(tag: string)

  /** What a parser returns together with the events it leaves unread. */
  datatype Parsed<+T> = Parsed(value: T, rest: seq<Event>) | Failed(error: Error)

  // ---- Fields ---------------------------------------------------------

  predicate IsEpisodeText(tag: string) {
    tag in ["description", "guid", "itunes:explicit", "link", "pubDate", "title"]
  }

  predicate IsEpisodeMedia(tag: string) {
    tag == "enclosure" || tag == "media:content"
  }

  function SetEpisodeText(rules: TextRules, e: RawEpisode, tag: string, text: string): RawEpisode {
    match tag
    case "description" => e.(description := Some(rules.sanitize(text)))
    case "guid" => e.(guid := Some(text))
    case "itunes:explicit" => e.(explicit := Some(text == "yes"))
    case "link" => e.(linkUrl := Some(text))
    case "pubDate" => e.(publishedAt := Some(text))
    case "title" => e.(title := Some(text))
    case _ => e
  }

  predicate IsPodcastText(tag: string) {
    tag in ["description", "language", "link", "title"]
  }

  function SetPodcastText(p: RawPodcast, tag: string, text: string): RawPodcast {
    match tag
    case "description" => p.(description := Some(text))
    case "language" => p.(language := Some(text))
    case "link" => p.(linkUrl := Some(text))
    case "title" => p.(title := Some(text))
    case _ => p
  }

  /** The value the attribute `key` ends up with: the last well-formed one wins,
      malformed attributes are passed over, and one that cannot be decoded fails. */
  function AttributeValue(
    rules: TextRules, attributes: seq<Attribute>, key: string, value: Option<string>
  ): Result<Option<string>, Error> {
    if attributes == [] then Ok(value)
    else if attributes[0].Attribute? && attributes[0].key == key then
      match attributes[0].value
      case None => Err(BadAttribute)
      case Some(v) => AttributeValue(rules, attributes[1..], key, Some(rules.trim(v)))
    else AttributeValue(rules, attributes[1..], key, value)
  }

  function SetMedia(rules: TextRules, attributes: seq<Attribute>, e: RawEpisode): Result<RawEpisode, Error> {
    var mediaType :- AttributeValue(rules, attributes, "type", e.mediaType);
    var mediaUrl :- AttributeValue(rules, attributes, "url", e.mediaUrl);
    Ok(e.(mediaType := mediaType, mediaUrl := mediaUrl))
  }

  function SetThumbnail(rules: TextRules, attributes: seq<Attribute>, p: RawPodcast): Result<RawPodcast, Error> {
    var imageUrl :- AttributeValue(rules, attributes, "url", p.imageUrl);
    Ok(p.(imageUrl := imageUrl))
  }

  // ---- Streams --------------------------------------------------------

  function Then<T>(r: Result<T, Error>, rest: seq<Event>): Parsed<T> {
    match r
    case Ok(v) => Parsed(v, rest)
    case Err(e) => Failed(e)
  }

  function TextOf(rules: TextRules, content: Option<string>): Result<string, Error> {
    match content
    case None => Err(NoContentInTag)
    case Some(s) => Ok(rules.trim(s))
  }

  /** Skips past the end tag `name` that closes `depth` more opened ones. */
  function SkipFrom(events: seq<Event>, name: string, depth: nat): (r: Parsed<()>)
    ensures r.Parsed? ==> |r.rest| < |events|
  {
    if events == [] then Failed(UnexpectedEof(name))
    else if events[0].End? && events[0].name == name then
      if depth == 0 then Parsed((), events[1..]) else SkipFrom(events[1..], name, depth - 1)
    else if events[0].Start? && events[0].name == name then SkipFrom(events[1..], name, depth + 1)
    else SkipFrom(events[1..], name, depth)
  }

  function TextFrom(rules: TextRules, events: seq<Event>, content: Option<string>): (r: Parsed<string>)
    ensures r.Parsed? ==> |r.rest| <= |events|
    decreases |events|
  {
    if events == [] then Then(TextOf(rules, content), [])
    else
      match events[0]
      case Start(name, _) =>
        (match SkipFrom(events[1..], name, 0)
         case Failed(e) => Failed(e)
         case Parsed(_, rest) => TextFrom(rules, rest, content))
      case CData(t) => TextFrom(rules, events[1..], Some(t))
      case Text(t) => TextFrom(rules, events[1..], Some(t))
      case End(_) => Then(TextOf(rules, content), events[1..])
      case Misc => TextFrom(rules, events[1..], content)
  }

  function ItemFrom(rules: TextRules, events: seq<Event>, e: RawEpisode): (r: Parsed<RawEpisode>)
    ensures r.Parsed? ==> |r.rest| < |events|
    decreases |events|
  {
    if events == [] then Failed(UnexpectedEof("item"))
    else
      match events[0]
      case Start(name, attributes) =>
        if IsEpisodeText(name) then
          match TextFrom(rules, events[1..], None)
          case Failed(err) => Failed(err)
          case Parsed(text, rest) => ItemFrom(rules, rest, SetEpisodeText(rules, e, name, text))
        else (
          match if IsEpisodeMedia(name) then SetMedia(rules, attributes, e) else Ok(e)
          case Err(err) => Failed(err)
          case Ok(e') =>
            match SkipFrom(events[1..], name, 0)
            case Failed(err) => Failed(err)
            case Parsed(_, rest) => ItemFrom(rules, rest, e'))
      case End(_) => Parsed(e, events[1..])
      case _ => ItemFrom(rules, events[1..], e)
  }

  function ChannelFrom(rules: TextRules, events: seq<Event>, feed: Feed): (r: Parsed<Feed>)
    ensures r.Parsed? ==> |r.rest| < |events|
    decreases |events|
  {
    if events == [] then Failed(UnexpectedEof("channel"))
    else
      match events[0]
      case Start(name, attributes) =>
        if name == "item" then
          match ItemFrom(rules, events[1..], EMPTY_EPISODE)
          case Failed(err) => Failed(err)
          case Parsed(e, rest) => ChannelFrom(rules, rest, feed.(episodes := feed.episodes + [e]))
        else if IsPodcastText(name) then (
          match TextFrom(rules, events[1..], None)
          case Failed(err) => Failed(err)
          case Parsed(text, rest) =>
            ChannelFrom(rules, rest, feed.(podcast := SetPodcastText(feed.podcast, name, text))))
        else (
          match if name == "media:thumbnail" then SetThumbnail(rules, attributes, feed.podcast) else Ok(feed.podcast)
          case Err(err) => Failed(err)
          case Ok(p) =>
            match SkipFrom(events[1..], name, 0)
            case Failed(err) => Failed(err)
            case Parsed(_, rest) => ChannelFrom(rules, rest, feed.(podcast := p)))
      case End(_) => Parsed(feed, events[1..])
      case _ => ChannelFrom(rules, events[1..], feed)
  }

  /** Only the first channel is parsed. A later one is not skipped either: its
      children are met at this level and its end tag ends the loop. */
  function RssFrom(rules: TextRules, events: seq<Event>, res: Option<Feed>): Result<Feed, Error>
    decreases |events|
  {
    if events == [] then Err(UnexpectedEof("rss"))
    else
      match events[0]
      case Start(name, _) =>
        if name == "channel" then
          if res.Some? then RssFrom(rules, events[1..], res)
          else
            match ChannelFrom(rules, events[1..], EMPTY_FEED)
            case Failed(err) => Err(err)
            case Parsed(feed, rest) => RssFrom(rules, rest, Some(feed))
        else (
          match SkipFrom(events[1..], name, 0)
          case Failed(err) => Err(err)
          case Parsed(_, rest) => RssFrom(rules, rest, res))
      case End(_) => if res.Some? then Ok(res.value) else Err(NoChannelTag)
      case _ => RssFrom(rules, events[1..], res)
  }

  function FeedFrom(rules: TextRules, events: seq<Event>): Result<Feed, Error>
    decreases |events|
  {
    if events == [] then Err(NoRssTag)
    else
      match events[0]
      case Start(name, _) =>
        if name == "rss" then RssFrom(rules, events[1..], None)
        else (
          match SkipFrom(events[1..], name, 0)
          case Failed(err) => Err(err)
          case Parsed(_, rest) => FeedFrom(rules, rest))
      case End(_) => Err(NoRssTag)
      case _ => FeedFrom(rules, events[1..])
  }

  // ---- The parsers ----------------------------------------------------

  /** Relates a parser's outcome and the reader it leaves to a stream function.
      After a failure the reader is abandoned, so its position says nothing. */
  ghost predicate Agrees<T>(r: Result<T, Error>, rest: seq<Event>, p: Parsed<T>) {
    match p
    case Parsed(v, left) => r == Ok(v) && rest == left
    case Failed(e) => r == Err(e)
  }

  method ReadToEnd(reader: Reader, name: string) returns (r: Result<(), Error>)
    modifies reader
    ensures Agrees(r, reader.remaining, SkipFrom(old(reader.remaining), name, 0))
  {
    var depth: nat := 0;
    while true
      invariant SkipFrom(reader.remaining, name, depth) == SkipFrom(old(reader.remaining), name, 0)
      decreases |reader.remaining|
    {
      var e := reader.ReadEvent();
      match e
      case None => return Err(UnexpectedEof(name));
      case Some(End(n)) =>
        if n == name {
          if depth == 0 {
            return Ok(());
          }
          depth := depth - 1;
        }
      case Some(Start(n, _)) =>
        if n == name {
          depth := depth + 1;
        }
      case _ =>
    }
  }

  method ElementText(rules: TextRules, reader: Reader) returns (r: Result<string, Error>)
    modifies reader
    ensures Agrees(r, reader.remaining, TextFrom(rules, old(reader.remaining), None))
  {
    var content: Option<string> := None;
    while true
      invariant TextFrom(rules, reader.remaining, content) == TextFrom(rules, old(reader.remaining), None)
      decreases |reader.remaining|
    {
      var e := reader.ReadEvent();
      match e
      case Some(Start(name, _)) =>
        var _ :- ReadToEnd(reader, name);
      case Some(CData(t)) => content := Some(t);
      case Some(Text(t)) => content := Some(t);
      case Some(Misc) =>
      case Some(End(_)) => break;
      case None => break;
    }
    return TextOf(rules, content);
  }

  method ParseItem(rules: TextRules, reader: Reader) returns (r: Result<RawEpisode, Error>)
    modifies reader
    ensures Agrees(r, reader.remaining, ItemFrom(rules, old(reader.remaining), EMPTY_EPISODE))
  {
    var episode := EMPTY_EPISODE;
    while true
      invariant ItemFrom(rules, reader.remaining, episode) == ItemFrom(rules, old(reader.remaining), EMPTY_EPISODE)
      decreases |reader.remaining|
    {
      var e := reader.ReadEvent();
      match e
      case Some(Start(name, attributes)) =>
        if IsEpisodeText(name) {
          var text :- ElementText(rules, reader);
          episode := SetEpisodeText(rules, episode, name, text);
        } else {
          if IsEpisodeMedia(name) {
            episode :- SetMedia(rules, attributes, episode);
          }
          var _ :- ReadToEnd(reader, name);
        }
      case Some(End(_)) => break;
      case None => return Err(UnexpectedEof("item"));
      case _ =>
    }
    return Ok(episode);
  }

  method ParseChannel(rules: TextRules, reader: Reader) returns (r: Result<Feed, Error>)
    modifies reader
    ensures Agrees(r, reader.remaining, ChannelFrom(rules, old(reader.remaining), EMPTY_FEED))
  {
    var podcast, episodes := EMPTY_FEED.podcast, [];
    while true
      invariant ChannelFrom(rules, reader.remaining, Feed(podcast, episodes))
             == ChannelFrom(rules, old(reader.remaining), EMPTY_FEED)
      decreases |reader.remaining|
    {
      var e := reader.ReadEvent();
      match e
      case Some(Start(name, attributes)) =>
        if name == "item" {
          var episode :- ParseItem(rules, reader);
          episodes := episodes + [episode];
        } else if IsPodcastText(name) {
          var text :- ElementText(rules, reader);
          podcast := SetPodcastText(podcast, name, text);
        } else {
          if name == "media:thumbnail" {
            podcast :- SetThumbnail(rules, attributes, podcast);
          }
          var _ :- ReadToEnd(reader, name);
        }
      case Some(End(_)) => break;
      case None => return Err(UnexpectedEof("channel"));
      case _ =>
    }
    return Ok(Feed(podcast, episodes));
  }

  method ParseRss(rules: TextRules, reader: Reader) returns (r: Result<Feed, Error>)
    modifies reader
    ensures r == RssFrom(rules, old(reader.remaining), None)
  {
    var res: Option<Feed> := None;
    while true
      invariant RssFrom(rules, reader.remaining, res) == RssFrom(rules, old(reader.remaining), None)
      decreases |reader.remaining|
    {
      var e := reader.ReadEvent();
      match e
      case Some(Start(name, _)) =>
        if name == "channel" {
          if res == None {
            var feed :- ParseChannel(rules, reader);
            res := Some(feed);
          }
        } else {
          var _ :- ReadToEnd(reader, name);
        }
      case Some(End(_)) => break;
      case None => return Err(UnexpectedEof("rss"));
      case _ =>
    }
    match res
    case Some(feed) => return Ok(feed);
    case None => return Err(NoChannelTag);
  }

  method ParseFeed(rules: TextRules, events: seq<Event>) returns (r: Result<Feed, Error>)
    ensures r == FeedFrom(rules, events)
  {
    var reader := new Reader(events);
    while true
      invariant FeedFrom(rules, reader.remaining) == FeedFrom(rules, events)
      invariant fresh(reader)
      decreases |reader.remaining|
    {
      var e := reader.ReadEvent();
      match e
      case Some(Start(name, _)) =>
        if name == "rss" {
          r := ParseRss(rules, reader);
          return;
        }
        var _ :- ReadToEnd(reader, name);
      case Some(End(_)) => break;
      case None => break;
      case _ =>
    }
    return Err(NoRssTag);
  }

  // ---- Trees ----------------------------------------------------------

  /** The last text or character data directly inside an element. */
  function LastText(children: seq<Node>): Option<string> {
    if children == [] then None
    else
      var last := children[|children| - 1];
      if last.TextNode? || last.CDataNode? then Some(last.text) else LastText(children[..|children| - 1])
  }

  function TextIn(rules: TextRules, children: seq<Node>): Result<string, Error> {
    TextOf(rules, LastText(children))
  }

  function ItemChild(rules: TextRules, child: Node, e: RawEpisode): Result<RawEpisode, Error> {
    match child
    case Element(name, attributes, inner) =>
      if IsEpisodeText(name) then
        var text :- TextIn(rules, inner);
        Ok(SetEpisodeText(rules, e, name, text))
      else if IsEpisodeMedia(name) then SetMedia(rules, attributes, e)
      else Ok(e)
    case _ => Ok(e)
  }

  function ItemIn(rules: TextRules, children: seq<Node>, e: RawEpisode): Result<RawEpisode, Error> {
    if children == [] then Ok(e)
    else
      var e' :- ItemChild(rules, children[0], e);
      ItemIn(rules, children[1..], e')
  }

  function ChannelChild(rules: TextRules, child: Node, feed: Feed): Result<Feed, Error> {
    match child
    case Element(name, attributes, inner) =>
      if name == "item" then
        var e :- ItemIn(rules, inner, EMPTY_EPISODE);
        Ok(feed.(episodes := feed.episodes + [e]))
      else if IsPodcastText(name) then
        var text :- TextIn(rules, inner);
        Ok(feed.(podcast := SetPodcastText(feed.podcast, name, text)))
      else if name == "media:thumbnail" then
        var p :- SetThumbnail(rules, attributes, feed.podcast);
        Ok(feed.(podcast := p))
      else Ok(feed)
    case _ => Ok(feed)
  }

  function ChannelIn(rules: TextRules, children: seq<Node>, feed: Feed): Result<Feed, Error> {
    if children == [] then Ok(feed)
    else
      var feed' :- ChannelChild(rules, children[0], feed);
      ChannelIn(rules, children[1..], feed')
  }

  /** The first element of the given name in a forest. */
  function FirstNamed(nodes: seq<Node>, name: string): Option<Node> {
    if nodes == [] then None
    else if nodes[0].Element? && nodes[0].name == name then Some(nodes[0])
    else FirstNamed(nodes[1..], name)
  }

  function RssIn(rules: TextRules, children: seq<Node>): Result<Feed, Error> {
    match FirstNamed(children, "channel")
    case Some(Element(_, _, inner)) => ChannelIn(rules, inner, EMPTY_FEED)
    case _ => Err(NoChannelTag)
  }

  function FeedIn(rules: TextRules, document: seq<Node>): Result<Feed, Error> {
    match FirstNamed(document, "rss")
    case Some(Element(_, _, inner)) => RssIn(rules, inner)
    case _ => Err(NoRssTag)
  }

  // ---- Streams of well-nested documents --------------------------------

  /** Unfolds one element at the head of a flattened forest. */
  lemma {:induction false} FlattenElement(nodes: seq<Node>, tail: seq<Event>)
    requires nodes != [] && nodes[0].Element?
    ensures var n := nodes[0];
            var s := FlattenAll(nodes) + tail;
            && s != [] && s[0] == Start(n.name, n.attributes)
            && s[1..] == FlattenAll(n.children) + ([End(n.name)] + (FlattenAll(nodes[1..]) + tail))
  {
  }

  /** Unfolds one childless node at the head of a flattened forest. */
  lemma {:induction false} FlattenLeaf(nodes: seq<Node>, tail: seq<Event>)
    requires nodes != [] && !nodes[0].Element?
    ensures var s := FlattenAll(nodes) + tail;
            && s != [] && [s[0]] == Flatten(nodes[0])
            && s[1..] == FlattenAll(nodes[1..]) + tail
  {
    var head, after := Flatten(nodes[0]), FlattenAll(nodes[1..]) + tail;
    assert FlattenAll(nodes) + tail == head + after;
    assert |head| == 1;
  }

  /** Skipping passes over whole subtrees without losing count, however their
      tags are named. */
  lemma {:induction false} SkipPassesForest(nodes: seq<Node>, tail: seq<Event>, name: string, depth: nat)
    ensures SkipFrom(FlattenAll(nodes) + tail, name, depth) == SkipFrom(tail, name, depth)
    decreases nodes
  {
    if nodes == [] {
      assert FlattenAll(nodes) + tail == tail;
    } else if nodes[0].Element? {
      var n := nodes[0];
      var after := FlattenAll(nodes[1..]) + tail;
      FlattenElement(nodes, tail);
      SkipPassesForest(n.children, [End(n.name)] + after, name, if n.name == name then depth + 1 else depth);
      assert ([End(n.name)] + after)[1..] == after;
      SkipPassesForest(nodes[1..], tail, name, depth);
    } else {
      FlattenLeaf(nodes, tail);
      SkipPassesForest(nodes[1..], tail, name, depth);
    }
  }

  /** Hence it stops exactly past the matching end tag. */
  lemma SkipStopsAtMatchingEnd(children: seq<Node>, name: string, rest: seq<Event>)
    ensures SkipFrom(FlattenAll(children) + ([End(name)] + rest), name, 0) == Parsed((), rest)
  {
    SkipPassesForest(children, [End(name)] + rest, name, 0);
    assert ([End(name)] + rest)[1..] == rest;
  }

  lemma {:induction false} LastTextPrepend(n: Node, ns: seq<Node>)
    ensures LastText([n] + ns) == if LastText(ns).Some? then LastText(ns) else LastText([n])
  {
    var all := [n] + ns;
    if ns == [] {
      assert all == [n];
    } else {
      assert all[..|all| - 1] == [n] + ns[..|ns| - 1];
      LastTextPrepend(n, ns[..|ns| - 1]);
    }
  }

  lemma {:induction false} TextFromTree(
    rules: TextRules, children: seq<Node>, name: string, rest: seq<Event>, content: Option<string>)
    ensures TextFrom(rules, FlattenAll(children) + ([End(name)] + rest), content)
         == Then(TextOf(rules, if LastText(children).Some? then LastText(children) else content), rest)
    decreases |children|
  {
    var tail := [End(name)] + rest;
    assert tail[1..] == rest;
    if children == [] {
      assert FlattenAll(children) + tail == tail;
    } else {
      var n := children[0];
      assert children == [n] + children[1..];
      LastTextPrepend(n, children[1..]);
      assert [n][..0] == [];
      if n.Element? {
        FlattenElement(children, tail);
        SkipStopsAtMatchingEnd(n.children, n.name, FlattenAll(children[1..]) + tail);
        TextFromTree(rules, children[1..], name, rest, content);
      } else {
        FlattenLeaf(children, tail);
        TextFromTree(rules, children[1..], name, rest, if n.MiscNode? then content else Some(n.text));
      }
    }
  }

  lemma {:induction false} ItemFromTree(
    rules: TextRules, children: seq<Node>, name: string, rest: seq<Event>, e: RawEpisode)
    ensures ItemFrom(rules, FlattenAll(children) + ([End(name)] + rest), e)
         == Then(ItemIn(rules, children, e), rest)
    decreases |children|
  {
    var tail := [End(name)] + rest;
    assert tail[1..] == rest;
    if children == [] {
      assert FlattenAll(children) + tail == tail;
    } else if children[0].Element? {
      var n := children[0];
      var after := FlattenAll(children[1..]) + tail;
      FlattenElement(children, tail);
      if IsEpisodeText(n.name) {
        TextFromTree(rules, n.children, n.name, after, None);
        match TextIn(rules, n.children)
        case Ok(text) => ItemFromTree(rules, children[1..], name, rest, SetEpisodeText(rules, e, n.name, text));
        case Err(_) =>
      } else {
        SkipStopsAtMatchingEnd(n.children, n.name, after);
        match if IsEpisodeMedia(n.name) then SetMedia(rules, n.attributes, e) else Ok(e)
        case Ok(e') => ItemFromTree(rules, children[1..], name, rest, e');
        case Err(_) =>
      }
    } else {
      FlattenLeaf(children, tail);
      ItemFromTree(rules, children[1..], name, rest, e);
    }
  }

  lemma {:induction false} ChannelFromTree(
    rules: TextRules, children: seq<Node>, name: string, rest: seq<Event>, feed: Feed)
    ensures ChannelFrom(rules, FlattenAll(children) + ([End(name)] + rest), feed)
         == Then(ChannelIn(rules, children, feed), rest)
    decreases |children|
  {
    var tail := [End(name)] + rest;
    assert tail[1..] == rest;
    if children == [] {
      assert FlattenAll(children) + tail == tail;
    } else if children[0].Element? {
      var n := children[0];
      var after := FlattenAll(children[1..]) + tail;
      FlattenElement(children, tail);
      if n.name == "item" {
        ItemFromTree(rules, n.children, n.name, after, EMPTY_EPISODE);
        match ItemIn(rules, n.children, EMPTY_EPISODE)
        case Ok(e) => ChannelFromTree(rules, children[1..], name, rest, feed.(episodes := feed.episodes + [e]));
        case Err(_) =>
      } else if IsPodcastText(n.name) {
        TextFromTree(rules, n.children, n.name, after, None);
        match TextIn(rules, n.children)
        case Ok(text) =>
          ChannelFromTree(rules, children[1..], name, rest,
                          feed.(podcast := SetPodcastText(feed.podcast, n.name, text)));
        case Err(_) =>
      } else {
        SkipStopsAtMatchingEnd(n.children, n.name, after);
        match if n.name == "media:thumbnail" then SetThumbnail(rules, n.attributes, feed.podcast) else Ok(feed.podcast)
        case Ok(p) => ChannelFromTree(rules, children[1..], name, rest, feed.(podcast := p));
        case Err(_) =>
      }
    } else {
      FlattenLeaf(children, tail);
      ChannelFromTree(rules, children[1..], name, rest, feed);
    }
  }

  /** Once a channel has been parsed nothing that follows in the `<rss>` element
      changes the result, later channels included. */
  lemma {:induction false} LaterChannelsIgnored(
    rules: TextRules, children: seq<Node>, name: string, rest: seq<Event>, feed: Feed)
    ensures RssFrom(rules, FlattenAll(children) + ([End(name)] + rest), Some(feed)) == Ok(feed)
    decreases children
  {
    var tail := [End(name)] + rest;
    if children == [] {
      assert FlattenAll(children) + tail == tail;
    } else if children[0].Element? {
      var n := children[0];
      var after := FlattenAll(children[1..]) + tail;
      FlattenElement(children, tail);
      if n.name == "channel" {
        LaterChannelsIgnored(rules, n.children, n.name, after, feed);
      } else {
        SkipStopsAtMatchingEnd(n.children, n.name, after);
        LaterChannelsIgnored(rules, children[1..], name, rest, feed);
      }
    } else {
      FlattenLeaf(children, tail);
      LaterChannelsIgnored(rules, children[1..], name, rest, feed);
    }
  }

  lemma {:induction false} RssFromTree(rules: TextRules, children: seq<Node>, name: string, rest: seq<Event>)
    ensures RssFrom(rules, FlattenAll(children) + ([End(name)] + rest), None) == RssIn(rules, children)
    decreases |children|
  {
    var tail := [End(name)] + rest;
    if children == [] {
      assert FlattenAll(children) + tail == tail;
    } else if children[0].Element? {
      var n := children[0];
      var after := FlattenAll(children[1..]) + tail;
      FlattenElement(children, tail);
      if n.name == "channel" {
        ChannelFromTree(rules, n.children, n.name, after, EMPTY_FEED);
        match ChannelIn(rules, n.children, EMPTY_FEED)
        case Ok(feed) => LaterChannelsIgnored(rules, children[1..], name, rest, feed);
        case Err(_) =>
      } else {
        SkipStopsAtMatchingEnd(n.children, n.name, after);
        RssFromTree(rules, children[1..], name, rest);
      }
    } else {
      FlattenLeaf(children, tail);
      RssFromTree(rules, children[1..], name, rest);
    }
  }

  /** Main result: on the events of any well-nested document the stream parser
      returns what the tree says, value or error. */
  lemma {:induction false} ParserReadsTree(rules: TextRules, document: seq<Node>)
    ensures FeedFrom(rules, FlattenAll(document)) == FeedIn(rules, document)
    decreases |document|
  {
    assert FlattenAll(document) + [] == FlattenAll(document);
    if document == [] {
    } else if document[0].Element? {
      var n := document[0];
      var after := FlattenAll(document[1..]);
      FlattenElement(document, []);
      assert after + [] == after;
      if n.name == "rss" {
        RssFromTree(rules, n.children, n.name, after);
      } else {
        SkipStopsAtMatchingEnd(n.children, n.name, after);
        ParserReadsTree(rules, document[1..]);
      }
    } else {
      FlattenLeaf(document, []);
      assert FlattenAll(document[1..]) + [] == FlattenAll(document[1..]);
      ParserReadsTree(rules, document[1..]);
    }
  }

  // ---- What the tree says ----------------------------------------------

  /** What `read` makes of the text directly inside an element called `tag`. */
  function TextFound<T>(rules: TextRules, n: Node, tag: string, read: string -> T, otherwise: Option<T>): Option<T> {
    if n.Element? && n.name == tag && LastText(n.children).Some?
    then Some(read(rules.trim(LastText(n.children).value))) else otherwise
  }

  /** What `read` makes of the text of the last child element called `tag`, or
      `otherwise`. Nothing deeper than the direct children is looked at. */
  function DirectText<T>(
    rules: TextRules, children: seq<Node>, tag: string, read: string -> T, otherwise: Option<T>
  ): Option<T> {
    if children == [] then otherwise
    else DirectText(rules, children[1..], tag, read, TextFound(rules, children[0], tag, read, otherwise))
  }

  function Verbatim(text: string): string {
    text
  }

  predicate IsYes(text: string) {
    text == "yes"
  }

  /** One outcome for each direct `<item>` child, in document order. */
  function DirectItems(rules: TextRules, children: seq<Node>): seq<Result<RawEpisode, Error>> {
    if children == [] then []
    else
      var n := children[0];
      (if n.Element? && n.name == "item" then [ItemIn(rules, n.children, EMPTY_EPISODE)] else [])
      + DirectItems(rules, children[1..])
  }

  function Succeeded(episodes: seq<RawEpisode>): seq<Result<RawEpisode, Error>> {
    seq(|episodes|, i requires 0 <= i < |episodes| => Ok(episodes[i]))
  }

  /** The last attribute with the wanted key decides. */
  lemma {:induction false} LastAttributeDecides(
    rules: TextRules, a: seq<Attribute>, v: string, b: seq<Attribute>, key: string, value: Option<string>)
    requires forall x <- a :: x.Attribute? && x.key == key ==> x.value.Some?
    requires forall x <- b :: x.Attribute? ==> x.key != key
    ensures AttributeValue(rules, a + [Attribute(key, Some(v))] + b, key, value) == Ok(Some(rules.trim(v)))
    decreases |a| + |b|
  {
    var all := a + [Attribute(key, Some(v))] + b;
    if a != [] {
      assert all[1..] == a[1..] + [Attribute(key, Some(v))] + b;
      var value' := if a[0].Attribute? && a[0].key == key then Some(rules.trim(a[0].value.value)) else value;
      LastAttributeDecides(rules, a[1..], v, b, key, value');
    } else {
      assert all[1..] == b;
      AttributeAbsent(rules, b, key, Some(rules.trim(v)));
    }
  }

  lemma AttributeAbsent(rules: TextRules, b: seq<Attribute>, key: string, value: Option<string>)
    requires forall x <- b :: x.Attribute? ==> x.key != key
    ensures AttributeValue(rules, b, key, value) == Ok(value)
  {
  }

  /** The last value an attribute list gives a key, or `otherwise`. */
  function LastAttribute(
    rules: TextRules, attributes: seq<Attribute>, key: string, otherwise: Option<string>
  ): Option<string> {
    if attributes == [] then otherwise
    else
      var last := attributes[|attributes| - 1];
      if last.Attribute? && last.key == key && last.value.Some? then Some(rules.trim(last.value.value))
      else LastAttribute(rules, attributes[..|attributes| - 1], key, otherwise)
  }

  /** The last value any wanted child element gives a key, or `otherwise`. */
  function DirectAttribute(
    rules: TextRules, children: seq<Node>, wanted: string -> bool, key: string, otherwise: Option<string>
  ): Option<string> {
    if children == [] then otherwise
    else
      var n := children[0];
      var found := if n.Element? && wanted(n.name) then LastAttribute(rules, n.attributes, key, otherwise)
                   else otherwise;
      DirectAttribute(rules, children[1..], wanted, key, found)
  }

  predicate IsThumbnail(tag: string) {
    tag == "media:thumbnail"
  }

  lemma {:induction false} LastAttributeFromFront(
    rules: TextRules, attributes: seq<Attribute>, key: string, otherwise: Option<string>)
    requires attributes != []
    ensures var first := attributes[0];
            var found := if first.Attribute? && first.key == key && first.value.Some?
                         then Some(rules.trim(first.value.value)) else otherwise;
            LastAttribute(rules, attributes, key, otherwise) == LastAttribute(rules, attributes[1..], key, found)
    decreases |attributes|
  {
    var init := attributes[..|attributes| - 1];
    if init != [] {
      LastAttributeFromFront(rules, init, key, otherwise);
      assert attributes[1..][..|attributes| - 2] == init[1..];
    }
  }

  lemma {:induction false} AttributeValueIsLast(
    rules: TextRules, attributes: seq<Attribute>, key: string, value: Option<string>)
    requires AttributeValue(rules, attributes, key, value).Ok?
    ensures AttributeValue(rules, attributes, key, value) == Ok(LastAttribute(rules, attributes, key, value))
    decreases |attributes|
  {
    if attributes != [] {
      LastAttributeFromFront(rules, attributes, key, value);
      var first := attributes[0];
      var found := if first.Attribute? && first.key == key then Some(rules.trim(first.value.value)) else value;
      AttributeValueIsLast(rules, attributes[1..], key, found);
    }
  }

  lemma MediaIsLast(rules: TextRules, attributes: seq<Attribute>, e: RawEpisode)
    requires SetMedia(rules, attributes, e).Ok?
    ensures SetMedia(rules, attributes, e).value ==
            e.(mediaType := LastAttribute(rules, attributes, "type", e.mediaType),
               mediaUrl := LastAttribute(rules, attributes, "url", e.mediaUrl))
  {
    AttributeValueIsLast(rules, attributes, "type", e.mediaType);
    AttributeValueIsLast(rules, attributes, "url", e.mediaUrl);
  }

  lemma MediaChild(rules: TextRules, child: Node, e: RawEpisode)
    requires ItemChild(rules, child, e).Ok?
    ensures var e' := ItemChild(rules, child, e).value;
            if child.Element? && IsEpisodeMedia(child.name)
            then e'.mediaType == LastAttribute(rules, child.attributes, "type", e.mediaType)
                 && e'.mediaUrl == LastAttribute(rules, child.attributes, "url", e.mediaUrl)
            else e'.mediaType == e.mediaType && e'.mediaUrl == e.mediaUrl
  {
    if child.Element? && IsEpisodeMedia(child.name) {
      MediaIsLast(rules, child.attributes, e);
    }
  }

  /** A parsed item takes its media from the attributes of its own children. */
  lemma {:induction false} ItemMediaAreDirectAttributes(
    rules: TextRules, children: seq<Node>, e: RawEpisode, e': RawEpisode)
    requires ItemIn(rules, children, e) == Ok(e')
    ensures e'.mediaType == DirectAttribute(rules, children, IsEpisodeMedia, "type", e.mediaType)
    ensures e'.mediaUrl == DirectAttribute(rules, children, IsEpisodeMedia, "url", e.mediaUrl)
    decreases |children|
  {
    if children != [] {
      MediaChild(rules, children[0], e);
      ItemMediaAreDirectAttributes(rules, children[1..], ItemChild(rules, children[0], e).value, e');
    }
  }

  lemma ImageChild(rules: TextRules, child: Node, feed: Feed)
    requires ChannelChild(rules, child, feed).Ok?
    ensures var p := ChannelChild(rules, child, feed).value.podcast;
            p.imageUrl == if child.Element? && IsThumbnail(child.name)
                          then LastAttribute(rules, child.attributes, "url", feed.podcast.imageUrl)
                          else feed.podcast.imageUrl
  {
    if child.Element? && IsThumbnail(child.name) {
      AttributeValueIsLast(rules, child.attributes, "url", feed.podcast.imageUrl);
    }
  }

  /** A parsed channel takes its image from the attributes of its own thumbnails. */
  lemma {:induction false} ChannelImageIsDirectAttribute(
    rules: TextRules, children: seq<Node>, feed: Feed, feed': Feed)
    requires ChannelIn(rules, children, feed) == Ok(feed')
    ensures feed'.podcast.imageUrl == DirectAttribute(rules, children, IsThumbnail, "url", feed.podcast.imageUrl)
    decreases |children|
  {
    if children != [] {
      ImageChild(rules, children[0], feed);
      ChannelImageIsDirectAttribute(rules, children[1..], ChannelChild(rules, children[0], feed).value, feed');
    }
  }

  lemma ItemTextChild(rules: TextRules, child: Node, e: RawEpisode)
    requires ItemChild(rules, child, e).Ok?
    ensures var e' := ItemChild(rules, child, e).value;
            && e'.description == TextFound(rules, child, "description", rules.sanitize, e.description)
            && e'.explicit == TextFound(rules, child, "itunes:explicit", IsYes, e.explicit)
            && e'.guid == TextFound(rules, child, "guid", Verbatim, e.guid)
            && e'.linkUrl == TextFound(rules, child, "link", Verbatim, e.linkUrl)
            && e'.publishedAt == TextFound(rules, child, "pubDate", Verbatim, e.publishedAt)
            && e'.title == TextFound(rules, child, "title", Verbatim, e.title)
  {
  }

  /** A parsed item holds the texts of its own children. */
  lemma {:induction false} ItemFieldsAreDirectTexts(
    rules: TextRules, children: seq<Node>, e: RawEpisode, e': RawEpisode)
    requires ItemIn(rules, children, e) == Ok(e')
    ensures e'.description == DirectText(rules, children, "description", rules.sanitize, e.description)
    ensures e'.explicit == DirectText(rules, children, "itunes:explicit", IsYes, e.explicit)
    ensures e'.guid == DirectText(rules, children, "guid", Verbatim, e.guid)
    ensures e'.linkUrl == DirectText(rules, children, "link", Verbatim, e.linkUrl)
    ensures e'.publishedAt == DirectText(rules, children, "pubDate", Verbatim, e.publishedAt)
    ensures e'.title == DirectText(rules, children, "title", Verbatim, e.title)
    decreases |children|
  {
    if children != [] {
      ItemTextChild(rules, children[0], e);
      ItemFieldsAreDirectTexts(rules, children[1..], ItemChild(rules, children[0], e).value, e');
    }
  }

  /** A parsed channel holds the texts of its own children. */
  lemma {:induction false} ChannelFieldsAreDirectTexts(
    rules: TextRules, children: seq<Node>, feed: Feed, feed': Feed)
    requires ChannelIn(rules, children, feed) == Ok(feed')
    ensures feed'.podcast.title == DirectText(rules, children, "title", Verbatim, feed.podcast.title)
    ensures feed'.podcast.description == DirectText(rules, children, "description", Verbatim, feed.podcast.description)
    ensures feed'.podcast.language == DirectText(rules, children, "language", Verbatim, feed.podcast.language)
    ensures feed'.podcast.linkUrl == DirectText(rules, children, "link", Verbatim, feed.podcast.linkUrl)
    decreases |children|
  {
    if children != [] {
      ChannelFieldsAreDirectTexts(rules, children[1..], ChannelChild(rules, children[0], feed).value, feed');
    }
  }

  /** A parsed channel holds one episode for each of its own items, in order. */
  lemma {:induction false} ChannelEpisodesAreDirectItems(
    rules: TextRules, children: seq<Node>, feed: Feed, feed': Feed)
    requires ChannelIn(rules, children, feed) == Ok(feed')
    ensures Succeeded(feed'.episodes) == Succeeded(feed.episodes) + DirectItems(rules, children)
    decreases |children|
  {
    if children != [] {
      var feed1 := ChannelChild(rules, children[0], feed).value;
      ChannelEpisodesAreDirectItems(rules, children[1..], feed1, feed');
      assert feed1.episodes == feed.episodes || Succeeded(feed1.episodes)
                                                == Succeeded(feed.episodes) + DirectItems(rules, children)[..1];
    }
  }

  predicate UnknownToChannel(n: Node) {
    n.Element? ==> n.name != "item" && !IsPodcastText(n.name) && n.name != "media:thumbnail"
  }

  lemma {:induction false} ChannelPassesOver(rules: TextRules, a: seq<Node>, x: Node, b: seq<Node>, feed: Feed)
    requires UnknownToChannel(x)
    ensures ChannelIn(rules, a + [x] + b, feed) == ChannelIn(rules, a + b, feed)
    decreases |a|
  {
    var long, short := a + [x] + b, a + b;
    if a == [] {
      assert long[1..] == b && short == b;
    } else {
      assert long[1..] == a[1..] + [x] + b && short[1..] == a[1..] + b;
      forall f: Feed ensures ChannelIn(rules, long[1..], f) == ChannelIn(rules, short[1..], f) {
        ChannelPassesOver(rules, a[1..], x, b, f);
      }
    }
  }

  /** The children of the channel the parser reads: the first one in the first
      `<rss>`, whatever stands around either. */
  function ChannelOf(document: seq<Node>): Option<seq<Node>> {
    match FirstNamed(document, "rss")
    case Some(Element(_, _, rss)) =>
      (match FirstNamed(rss, "channel")
       case Some(Element(_, _, channel)) => Some(channel)
       case _ => None)
    case _ => None
  }

  /** Only the children of that channel count. */
  lemma ParserReadsChannel(rules: TextRules, document: seq<Node>)
    ensures match ChannelOf(document)
            case None => FeedFrom(rules, FlattenAll(document)).Err?
            case Some(channel) => FeedFrom(rules, FlattenAll(document)) == ChannelIn(rules, channel, EMPTY_FEED)
  {
    ParserReadsTree(rules, document);
  }

  /** Main result: an unknown subtree inside the channel, such as an `<image>` with its
      own `<title>`, never changes what the stream parser returns, and nor does
      anything outside the channel, such as a declaration, attributes or a second
      channel. */
  lemma UnknownSubtreesIgnored(
    rules: TextRules, document: seq<Node>, document': seq<Node>, a: seq<Node>, x: Node, b: seq<Node>)
    requires ChannelOf(document) == Some(a + [x] + b) && ChannelOf(document') == Some(a + b)
    requires UnknownToChannel(x)
    ensures FeedFrom(rules, FlattenAll(document)) == FeedFrom(rules, FlattenAll(document'))
  {
    ParserReadsChannel(rules, document);
    ParserReadsChannel(rules, document');
    ChannelPassesOver(rules, a, x, b, EMPTY_FEED);
  }

  predicate UnknownToItem(n: Node) {
    n.Element? ==> !IsEpisodeText(n.name) && !IsEpisodeMedia(n.name)
  }

  lemma {:induction false} ItemPassesOver(rules: TextRules, a: seq<Node>, x: Node, b: seq<Node>, e: RawEpisode)
    requires UnknownToItem(x)
    ensures ItemIn(rules, a + [x] + b, e) == ItemIn(rules, a + b, e)
    decreases |a|
  {
    var long, short := a + [x] + b, a + b;
    if a == [] {
      assert long[1..] == b && short == b;
    } else {
      assert long[1..] == a[1..] + [x] + b && short[1..] == a[1..] + b;
      var e' := ItemChild(rules, a[0], e);
      if e'.Ok? {
        ItemPassesOver(rules, a[1..], x, b, e'.value);
      }
    }
  }

  /** Children that are read alike can stand for each other. */
  lemma {:induction false} ChannelReadsAlike(
    rules: TextRules, a: seq<Node>, x: Node, y: Node, b: seq<Node>, feed: Feed)
    requires forall f: Feed :: ChannelChild(rules, x, f) == ChannelChild(rules, y, f)
    ensures ChannelIn(rules, a + [x] + b, feed) == ChannelIn(rules, a + [y] + b, feed)
    decreases |a|
  {
    var with, without := a + [x] + b, a + [y] + b;
    if a == [] {
      assert with[1..] == b && without[1..] == b;
    } else {
      assert with[1..] == a[1..] + [x] + b && without[1..] == a[1..] + [y] + b;
      var feed' := ChannelChild(rules, a[0], feed);
      if feed'.Ok? {
        ChannelReadsAlike(rules, a[1..], x, y, b, feed'.value);
      }
    }
  }

  /** Main result: nor does an unknown subtree inside an item. */
  lemma UnknownItemSubtreesIgnored(
    rules: TextRules, document: seq<Node>, document': seq<Node>, before: seq<Node>, after: seq<Node>,
    attributes: seq<Attribute>, a: seq<Node>, x: Node, b: seq<Node>)
    requires ChannelOf(document) == Some(before + [Element("item", attributes, a + [x] + b)] + after)
    requires ChannelOf(document') == Some(before + [Element("item", attributes, a + b)] + after)
    requires UnknownToItem(x)
    ensures FeedFrom(rules, FlattenAll(document)) == FeedFrom(rules, FlattenAll(document'))
  {
    ParserReadsChannel(rules, document);
    ParserReadsChannel(rules, document');
    ItemPassesOver(rules, a, x, b, EMPTY_EPISODE);
    var with, without := Element("item", attributes, a + [x] + b), Element("item", attributes, a + b);
    assert forall f: Feed :: ChannelChild(rules, with, f) == ChannelChild(rules, without, f);
    ChannelReadsAlike(rules, before, with, without, after, EMPTY_FEED);
  }
}
