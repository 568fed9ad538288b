/** Which well-nested documents parse, and with which error the others fail. */
module FeedErrors {
  import opened Wrappers
  import opened Xml
  import opened FeedParser

  // ---- Defects of single elements ---------------------------------------------------

  /** Some text or character data stands directly inside an element. */
  predicate HasText(children: seq<Node>) {
    exists n <- children :: n.TextNode? || n.CDataNode?
  }

  /** Every well-formed attribute of this name has a value that can be decoded. */
  predicate HasValue(attributes: seq<Attribute>, key: string) {
    forall a <- attributes :: a.Attribute? && a.key == key ==> a.value.Some?
  }

  predicate IsItemText(name: string) {
    || name == "description" || name == "guid" || name == "itunes:explicit"
    || name == "link" || name == "pubDate" || name == "title"
  }

  predicate IsItemMedia(name: string) {
    name == "enclosure" || name == "media:content"
  }

  predicate IsChannelText(name: string) {
    name == "description" || name == "language" || name == "link" || name == "title"
  }

  /** What is wrong with a child of an item. Only its text and media tags can be. */
  function ItemDefect(n: Node): Option<Error> {
    if !n.Element? then None
    else if IsItemText(n.name) && !HasText(n.children) then Some(NoContentInTag)
    else if IsItemMedia(n.name) && !(HasValue(n.attributes, "type") && HasValue(n.attributes, "url")) then
      Some(BadAttribute)
    else None
  }

  function FirstItemDefect(children: seq<Node>): Option<Error> {
    if children == [] then None
    else if ItemDefect(children[0]).Some? then ItemDefect(children[0])
    else FirstItemDefect(children[1..])
  }

  function ChannelDefect(n: Node): Option<Error> {
    if !n.Element? then None
    else if n.name == "item" then FirstItemDefect(n.children)
    else if IsChannelText(n.name) && !HasText(n.children) then Some(NoContentInTag)
    else if n.name == "media:thumbnail" && !HasValue(n.attributes, "url") then Some(BadAttribute)
    else None
  }

  function FirstChannelDefect(children: seq<Node>): Option<Error> {
    if children == [] then None
    else if ChannelDefect(children[0]).Some? then ChannelDefect(children[0])
    else FirstChannelDefect(children[1..])
  }

  // ---- Items and channels without a defect --------------------------------------------

  /** Every child with a text tag has a direct text, and every `type` or `url` of an
      enclosure or media:content has a value. Nothing else matters. */
  predicate ItemReadable(children: seq<Node>) {
    forall n <- children :: n.Element? ==>
      && (IsItemText(n.name) ==> HasText(n.children))
      && (IsItemMedia(n.name) ==> HasValue(n.attributes, "type") && HasValue(n.attributes, "url"))
  }

  predicate ChannelReadable(children: seq<Node>) {
    forall n <- children :: n.Element? ==>
      && (IsChannelText(n.name) ==> HasText(n.children))
      && (n.name == "media:thumbnail" ==> HasValue(n.attributes, "url"))
      && (n.name == "item" ==> ItemReadable(n.children))
  }

  lemma {:induction false} NoItemDefect(children: seq<Node>)
    ensures FirstItemDefect(children).None? <==> ItemReadable(children)
  {
    if children != [] {
      NoItemDefect(children[1..]);
      assert children == [children[0]] + children[1..];
    }
  }

  lemma {:induction false} NoChannelDefect(children: seq<Node>)
    ensures FirstChannelDefect(children).None? <==> ChannelReadable(children)
  {
    if children != [] {
      NoChannelDefect(children[1..]);
      if children[0].Element? {
        NoItemDefect(children[0].children);
      }
      assert children == [children[0]] + children[1..];
    }
  }

  // ---- What the parser makes of them ------------------------------------------------------

  lemma {:induction false} TextIsFound(children: seq<Node>)
    ensures LastText(children).Some? <==> HasText(children)
    decreases |children|
  {
    if children != [] {
      var init := children[..|children| - 1];
      TextIsFound(init);
      assert children == init + [children[|children| - 1]];
    }
  }

  /** The text found is the last one directly inside. */
  lemma {:induction false} TextFoundIsLast(a: seq<Node>, n: Node, b: seq<Node>)
    requires (n.TextNode? || n.CDataNode?) && !HasText(b)
    ensures LastText(a + [n] + b) == Some(n.text)
    decreases |b|
  {
    var all := a + [n] + b;
    if b != [] {
      var init, last := b[..|b| - 1], b[|b| - 1];
      assert last in b;
      assert all[..|all| - 1] == a + [n] + init;
      assert forall m <- init :: m in b;
      TextFoundIsLast(a, n, init);
    }
  }

  lemma {:induction false} ValueIsFound(
    rules: TextRules, attributes: seq<Attribute>, key: string, value: Option<string>)
    ensures var r := AttributeValue(rules, attributes, key, value);
            if HasValue(attributes, key) then r.Ok? else r == Err(BadAttribute)
    decreases |attributes|
  {
    if attributes != [] {
      var a := attributes[0];
      assert attributes == [a] + attributes[1..];
      if !(a.Attribute? && a.key == key && a.value.None?) {
        var next := if a.Attribute? && a.key == key then Some(rules.trim(a.value.value)) else value;
        ValueIsFound(rules, attributes[1..], key, next);
      }
    }
  }

  /** The error of a result, if it is one. */
  function ErrorOf<T>(r: Result<T, Error>): Option<Error> {
    if r.Ok? then None else Some(r.error)
  }

  lemma TagNames(name: string)
    ensures IsEpisodeText(name) == IsItemText(name)
    ensures IsEpisodeMedia(name) == IsItemMedia(name)
    ensures IsPodcastText(name) == IsChannelText(name)
  {
  }

  lemma NamesApart(name: string)
    ensures !(IsItemText(name) && IsItemMedia(name))
    ensures !(IsChannelText(name) && (name == "item" || name == "media:thumbnail"))
  {
  }

  lemma ItemChildFails(rules: TextRules, n: Node, e: RawEpisode)
    ensures ErrorOf(ItemChild(rules, n, e)) == ItemDefect(n)
  {
    if n.Element? {
      TagNames(n.name);
      NamesApart(n.name);
      TextIsFound(n.children);
      ValueIsFound(rules, n.attributes, "type", e.mediaType);
      ValueIsFound(rules, n.attributes, "url", e.mediaUrl);
    }
  }

  /** Main result: an item fails with the error of its first defective child, and is
      read if and only if it has none. */
  lemma {:induction false} ItemFailsExactly(rules: TextRules, children: seq<Node>, e: RawEpisode)
    ensures ErrorOf(ItemIn(rules, children, e)) == FirstItemDefect(children)
    ensures ItemIn(rules, children, e).Ok? <==> ItemReadable(children)
    decreases |children|
  {
    NoItemDefect(children);
    if children != [] {
      ItemChildFails(rules, children[0], e);
      var e' := ItemChild(rules, children[0], e);
      if e'.Ok? {
        ItemFailsExactly(rules, children[1..], e'.value);
      }
    }
  }

  lemma ChannelChildFails(rules: TextRules, n: Node, feed: Feed)
    ensures ErrorOf(ChannelChild(rules, n, feed)) == ChannelDefect(n)
  {
    if n.Element? {
      TagNames(n.name);
      NamesApart(n.name);
      TextIsFound(n.children);
      ValueIsFound(rules, n.attributes, "url", feed.podcast.imageUrl);
      ItemFailsExactly(rules, n.children, EMPTY_EPISODE);
    }
  }

  lemma {:induction false} ChannelFailsExactly(rules: TextRules, children: seq<Node>, feed: Feed)
    ensures ErrorOf(ChannelIn(rules, children, feed)) == FirstChannelDefect(children)
    ensures ChannelIn(rules, children, feed).Ok? <==> ChannelReadable(children)
    decreases |children|
  {
    NoChannelDefect(children);
    if children != [] {
      ChannelChildFails(rules, children[0], feed);
      var feed' := ChannelChild(rules, children[0], feed);
      if feed'.Ok? {
        ChannelFailsExactly(rules, children[1..], feed'.value);
      }
    }
  }

  /** The first thing wrong with a document: no `<rss>`, no `<channel>` in it, or the
      first defect of that channel in document order. */
  function DocumentDefect(document: seq<Node>): Option<Error> {
    match ChannelOf(document)
    case Some(channel) => FirstChannelDefect(channel)
    case None => Some(if exists n <- document :: n.Element? && n.name == "rss" then NoChannelTag else NoRssTag)
  }

  lemma {:induction false} FirstNamedExists(nodes: seq<Node>, name: string)
    ensures FirstNamed(nodes, name).Some? <==> exists n <- nodes :: n.Element? && n.name == name
    ensures FirstNamed(nodes, name).Some? ==> FirstNamed(nodes, name).value.Element?
  {
    if nodes != [] {
      FirstNamedExists(nodes[1..], name);
      assert nodes == [nodes[0]] + nodes[1..];
    }
  }

  /** Main result: for every well-nested document the stream parser succeeds if and only
      if there is a channel to read and it is readable, and otherwise fails with the
      first thing that is wrong. */
  lemma FeedFailsExactly(rules: TextRules, document: seq<Node>)
    ensures ErrorOf(FeedFrom(rules, FlattenAll(document))) == DocumentDefect(document)
    ensures FeedFrom(rules, FlattenAll(document)).Ok? <==>
            ChannelOf(document).Some? && ChannelReadable(ChannelOf(document).value)
  {
    ParserReadsTree(rules, document);
    FirstNamedExists(document, "rss");
    var rss := FirstNamed(document, "rss");
    if rss.Some? {
      FirstNamedExists(rss.value.children, "channel");
    }
    if ChannelOf(document).Some? {
      ParserReadsChannel(rules, document);
      ChannelFailsExactly(rules, ChannelOf(document).value, EMPTY_FEED);
    }
  }

  // ---- Titles ---------------------------------------------------------------------------------

  predicate HasChild(children: seq<Node>, name: string) {
    exists n <- children :: n.Element? && n.name == name
  }

  lemma {:induction false} TextIsThere<T>(
    rules: TextRules, children: seq<Node>, tag: string, read: string -> T, otherwise: Option<T>)
    requires forall n <- children :: n.Element? && n.name == tag ==> HasText(n.children)
    ensures DirectText(rules, children, tag, read, otherwise).Some? <==> otherwise.Some? || HasChild(children, tag)
    decreases |children|
  {
    if children != [] {
      var n := children[0];
      assert children == [n] + children[1..];
      if n.Element? {
        TextIsFound(n.children);
      }
      TextIsThere(rules, children[1..], tag, read, TextFound(rules, n, tag, read, otherwise));
    }
  }

  /** A readable channel has a title exactly when it has a `<title>`. */
  lemma TitleIsThere(rules: TextRules, channel: seq<Node>)
    requires ChannelIn(rules, channel, EMPTY_FEED).Ok?
    ensures ChannelIn(rules, channel, EMPTY_FEED).value.podcast.title.Some? <==> HasChild(channel, "title")
  {
    ChannelFailsExactly(rules, channel, EMPTY_FEED);
    ChannelFieldsAreDirectTexts(rules, channel, EMPTY_FEED, ChannelIn(rules, channel, EMPTY_FEED).value);
    TextIsThere(rules, channel, "title", Verbatim, None);
  }
}
