/** The HTML sanitiser, from the parsed document onward: a walk that appends to
    one buffer, shown to print a filtered forest. */
module HtmlSanitizer {
  import opened Wrappers
  import opened Collections

  datatype Attr = Attr(namespaced: bool, name: string, value: string)

  datatype Data =
    | Comment
    | Doctype
    | Document
    | Element(isHtml: bool, name: string, attrs: seq<Attr>)
    | Text(contents: string)

  datatype Node = Node(data: Data, children: seq<Node>)

  /** What the sanitiser lets through. `href` is present exactly on links. */
  datatype Clean =
    | Chars(text: string)
    | Rule
    | Tagged(tag: string, href: Option<string>, children: seq<Clean>)

  datatype Token =
    | CharsToken(text: string)
    | RuleToken
    | Open(tag: string, href: Option<string>)
    | Close(tag: string)

  const KEPT_TAGS := ["blockquote", "code", "em", "li", "ol", "p", "strong", "sub", "sup", "ul"]

  // ---- The filter ------------------------------------------------------

  /** The last `href` in no namespace. */
  function Href(attrs: seq<Attr>): Option<string> {
    if attrs == [] then None
    else
      var last := attrs[|attrs| - 1];
      if !last.namespaced && last.name == "href" then Some(last.value) else Href(attrs[..|attrs| - 1])
  }

  /** What a node itself contributes around its children's output. */
  datatype Shape =
    | Nothing
    | OwnText(text: string)
    | OwnRule
    | Wrapper(tag: string, href: Option<string>)

  function ElementShape(name: string, attrs: seq<Attr>): Shape {
    if name == "a" then if Href(attrs).None? then Nothing else Wrapper("a", Href(attrs))
    else if name in KEPT_TAGS then Wrapper(name, None)
    else if name == "hr" then OwnRule
    else if name == "bold" then Wrapper("strong", None)
    else if name == "i" then Wrapper("em", None)
    else Nothing
  }

  function ShapeOf(d: Data): Shape {
    match d
    case Text(contents) => OwnText(contents)
    case Element(true, name, attrs) => ElementShape(name, attrs)
    case _ => Nothing
  }

  function Wrap(s: Shape, inner: seq<Clean>): seq<Clean> {
    match s
    case Nothing => inner
    case OwnText(text) => [Chars(text)] + inner
    case OwnRule => [Rule] + inner
    case Wrapper(tag, href) => [Tagged(tag, href, inner)]
  }

  /** Dropped nodes give way to their filtered children. */
  function Filter(n: Node): seq<Clean> {
    Wrap(ShapeOf(n.data), FilterAll(n.children))
  }

  function FilterAll(ns: seq<Node>): seq<Clean> {
    if ns == [] then [] else Filter(ns[0]) + FilterAll(ns[1..])
  }

  // ---- Printing --------------------------------------------------------

  function Print(c: Clean): seq<Token> {
    match c
    case Chars(text) => [CharsToken(text)]
    case Rule => [RuleToken]
    case Tagged(tag, href, children) => [Open(tag, href)] + PrintAll(children) + [Close(tag)]
  }

  function PrintAll(cs: seq<Clean>): seq<Token> {
    if cs == [] then [] else Print(cs[0]) + PrintAll(cs[1..])
  }

  function RenderToken(t: Token): string {
    match t
    case CharsToken(text) => text
    case RuleToken => "<hr>"
    case Open(tag, None) => "<" + tag + ">"
    case Open(tag, Some(href)) => "<" + tag + " href=\"" + href + "\" rel=\"nofollow\">"
    case Close(tag) => "</" + tag + ">"
  }

  function Render(ts: seq<Token>): string {
    if ts == [] then "" else RenderToken(ts[0]) + Render(ts[1..])
  }

  /** The string a node sanitises to. */
  function Sanitized(n: Node): string {
    Render(PrintAll(Filter(n)))
  }

  lemma {:induction false} RenderConcat(a: seq<Token>, b: seq<Token>)
    ensures Render(a + b) == Render(a) + Render(b)
  {
    if a == [] {
      assert a + b == b;
    } else {
      assert (a + b)[1..] == a[1..] + b;
      RenderConcat(a[1..], b);
    }
  }

  lemma {:induction false} PrintConcat(a: seq<Clean>, b: seq<Clean>)
    ensures PrintAll(a + b) == PrintAll(a) + PrintAll(b)
  {
    if a == [] {
      assert a + b == b;
    } else {
      assert (a + b)[1..] == a[1..] + b;
      PrintConcat(a[1..], b);
    }
  }

  lemma {:induction false} FilterConcat(a: seq<Node>, b: seq<Node>)
    ensures FilterAll(a + b) == FilterAll(a) + FilterAll(b)
  {
    if a == [] {
      assert a + b == b;
    } else {
      assert (a + b)[1..] == a[1..] + b;
      FilterConcat(a[1..], b);
    }
  }

  function RenderedForest(ns: seq<Node>): string {
    Render(PrintAll(FilterAll(ns)))
  }

  lemma RenderedSnoc(before: string, ns: seq<Node>, i: nat)
    requires i < |ns|
    ensures before + RenderedForest(ns[..i]) + Sanitized(ns[i]) == before + RenderedForest(ns[..i + 1])
  {
    Regroup(before, RenderedForest(ns[..i]), Sanitized(ns[i]));
    assert ns[..i + 1] == ns[..i] + [ns[i]];
    FilterConcat(ns[..i], [ns[i]]);
    assert FilterAll([ns[i]]) == Filter(ns[i]);
    PrintConcat(FilterAll(ns[..i]), Filter(ns[i]));
    RenderConcat(PrintAll(FilterAll(ns[..i])), PrintAll(Filter(ns[i])));
  }

  function OpeningText(s: Shape): string {
    match s
    case Nothing => ""
    case OwnText(text) => text
    case OwnRule => RenderToken(RuleToken)
    case Wrapper(tag, href) => RenderToken(Open(tag, href))
  }

  function ClosingText(s: Shape): string {
    if s.Wrapper? then RenderToken(Close(s.tag)) else ""
  }

  lemma RenderedAroundChildren(before: string, s: Shape, inner: seq<Clean>)
    ensures before + OpeningText(s) + Render(PrintAll(inner)) + ClosingText(s)
         == before + Render(PrintAll(Wrap(s, inner)))
  {
    var middle := Render(PrintAll(inner));
    WrapRendered(s, inner);
    Regroup(before, OpeningText(s), middle);
    Regroup(before, OpeningText(s) + middle, ClosingText(s));
  }

  lemma WrapRendered(s: Shape, inner: seq<Clean>)
    ensures Render(PrintAll(Wrap(s, inner))) == OpeningText(s) + Render(PrintAll(inner)) + ClosingText(s)
  {
    match s
    case Nothing =>
    case OwnText(text) =>
      PrintConcat([Chars(text)], inner);
      RenderConcat([CharsToken(text)], PrintAll(inner));
    case OwnRule =>
      PrintConcat([Rule], inner);
      RenderConcat([RuleToken], PrintAll(inner));
    case Wrapper(tag, href) =>
      assert PrintAll(Wrap(s, inner)) == [Open(tag, href)] + PrintAll(inner) + [Close(tag)];
      RenderConcat([Open(tag, href)] + PrintAll(inner), [Close(tag)]);
      RenderConcat([Open(tag, href)], PrintAll(inner));
  }

  // ---- The walk --------------------------------------------------------

  class Buffer {
    var text: string

    constructor ()
      ensures text == ""
    {
      text := "";
    }

    method PushStr(s: string)
      modifies this
      ensures text == old(text) + s
    {
      text := text + s;
    }
  }

  method FindHref(attrs: seq<Attr>) returns (href: Option<string>)
    ensures href == Href(attrs)
  {
    href := None;
    for i := 0 to |attrs|
      invariant href == Href(attrs[..i])
    {
      assert attrs[..i + 1][..i] == attrs[..i];
      if attrs[i].namespaced {
        continue;
      }
      if attrs[i].name == "href" {
        href := Some(attrs[i].value);
      }
    }
    assert attrs[..|attrs|] == attrs;
  }

  lemma LinkTags(href: string)
    ensures RenderToken(Open("a", Some(href))) == "<a href=\"" + href + "\" rel=\"nofollow\">"
    ensures RenderToken(Close("a")) == "</a>"
  {
    assert "<" + "a" + " href=\"" == "<a href=\"";
  }

  lemma LiteralTags()
    ensures RenderToken(Open("strong", None)) == "<strong>" && RenderToken(Close("strong")) == "</strong>"
    ensures RenderToken(Open("em", None)) == "<em>" && RenderToken(Close("em")) == "</em>"
  {
  }

  /** Appends a node's own text or start tag and chooses its end tag. */
  method OpenTag(data: Data, out: Buffer) returns (closeTag: Option<string>)
    modifies out
    ensures out.text == old(out.text) + OpeningText(ShapeOf(data))
    ensures (if closeTag.Some? then closeTag.value else "") == ClosingText(ShapeOf(data))
  {
    closeTag := None;
    match data {
      case Comment =>
      case Doctype =>
      case Document =>
      case Element(isHtml, name, attrs) =>
        if isHtml {
          if name == "a" {
            var href := FindHref(attrs);
            if href.Some? {
              out.PushStr("<a href=\"" + href.value + "\" rel=\"nofollow\">");
              closeTag := Some("</a>");
              LinkTags(href.value);
            }
          } else if name in KEPT_TAGS {
            out.PushStr("<" + name + ">");
            closeTag := Some("</" + name + ">");
          } else if name == "hr" {
            out.PushStr("<hr>");
          } else if name == "bold" {
            out.PushStr("<strong>");
            closeTag := Some("</strong>");
            LiteralTags();
          } else if name == "i" {
            out.PushStr("<em>");
            closeTag := Some("</em>");
            LiteralTags();
          }
        }
      case Text(contents) =>
        out.PushStr(contents);
    }
  }

  /** Main result: whatever the buffer held, the walk appends the rendering of
      the filtered node and nothing else. */
  method Walk(node: Node, out: Buffer)
    modifies out
    ensures out.text == old(out.text) + Sanitized(node)
    decreases node, 0
  {
    var closeTag := OpenTag(node.data, out);

    WalkChildren(node.children, out);
    if closeTag.Some? {
      out.PushStr(closeTag.value);
    }
    RenderedAroundChildren(old(out.text), ShapeOf(node.data), FilterAll(node.children));
  }

  method WalkChildren(children: seq<Node>, out: Buffer)
    modifies out
    ensures out.text == old(out.text) + RenderedForest(children)
    decreases children
  {
    for i := 0 to |children|
      invariant out.text == old(out.text) + RenderedForest(children[..i])
    {
      Walk(children[i], out);
      RenderedSnoc(old(out.text), children, i);
    }
    assert children[..|children|] == children;
  }

  // ---- Which elements are let through -----------------------------------

  lemma RenderedAround(n: Node)
    ensures Sanitized(n) == OpeningText(ShapeOf(n.data)) + RenderedForest(n.children) + ClosingText(ShapeOf(n.data))
  {
    WrapRendered(ShapeOf(n.data), FilterAll(n.children));
  }

  /** Siblings are printed one after the other. */
  lemma ForestInOrder(ns: seq<Node>)
    ensures RenderedForest([]) == ""
    ensures ns != [] ==> RenderedForest(ns) == Sanitized(ns[0]) + RenderedForest(ns[1..])
  {
    if ns != [] {
      PrintConcat(Filter(ns[0]), FilterAll(ns[1..]));
      RenderConcat(PrintAll(Filter(ns[0])), PrintAll(FilterAll(ns[1..])));
    }
  }

  /** The elements kept as they are. */
  predicate IsKept(name: string) {
    || name == "blockquote" || name == "code" || name == "em" || name == "li" || name == "ol"
    || name == "p" || name == "strong" || name == "sub" || name == "sup" || name == "ul"
  }

  lemma KeptTagsAre(name: string)
    ensures name in KEPT_TAGS <==> IsKept(name)
  {
  }

  lemma KeptIsNotSpecial(name: string)
    requires IsKept(name)
    ensures name != "a"
  {
  }

  lemma ShapeOfKept(name: string, attrs: seq<Attr>)
    requires IsKept(name)
    ensures ElementShape(name, attrs) == Wrapper(name, None)
  {
    KeptTagsAre(name);
    KeptIsNotSpecial(name);
  }

  lemma WrappedElement(name: string, attrs: seq<Attr>, children: seq<Node>, tag: string)
    requires ElementShape(name, attrs) == Wrapper(tag, None)
    ensures Filter(Node(Element(true, name, attrs), children)) == [Tagged(tag, None, FilterAll(children))]
    ensures Sanitized(Node(Element(true, name, attrs), children))
         == "<" + tag + ">" + RenderedForest(children) + "</" + tag + ">"
  {
    RenderedAround(Node(Element(true, name, attrs), children));
  }

  /** Main result: each of the ten elements is kept as itself, without its attributes. */
  lemma KeptElement(name: string, attrs: seq<Attr>, children: seq<Node>)
    requires IsKept(name)
    ensures Filter(Node(Element(true, name, attrs), children)) == [Tagged(name, None, FilterAll(children))]
    ensures Sanitized(Node(Element(true, name, attrs), children))
         == "<" + name + ">" + RenderedForest(children) + "</" + name + ">"
  {
    ShapeOfKept(name, attrs);
    WrappedElement(name, attrs, children, name);
  }

  lemma BoldIsNotKept(name: string)
    requires name == "bold"
    ensures !IsKept(name) && name != "a" && name != "hr"
  {
  }

  lemma ItalicIsNotKept(name: string)
    requires name == "i"
    ensures !IsKept(name) && name != "a" && name != "hr" && name != "bold"
  {
  }

  lemma RuleIsNotKept(name: string)
    requires name == "hr"
    ensures !IsKept(name) && name != "a"
  {
  }

  /** `bold` becomes `strong`. */
  lemma BoldElement(name: string, attrs: seq<Attr>, children: seq<Node>)
    requires name == "bold"
    ensures Filter(Node(Element(true, name, attrs), children)) == [Tagged("strong", None, FilterAll(children))]
    ensures Sanitized(Node(Element(true, name, attrs), children))
         == "<strong>" + RenderedForest(children) + "</strong>"
  {
    BoldIsNotKept(name);
    KeptTagsAre(name);
    LiteralTags();
    RenderedAround(Node(Element(true, name, attrs), children));
  }

  /** `i` becomes `em`. */
  lemma ItalicElement(name: string, attrs: seq<Attr>, children: seq<Node>)
    requires name == "i"
    ensures Filter(Node(Element(true, name, attrs), children)) == [Tagged("em", None, FilterAll(children))]
    ensures Sanitized(Node(Element(true, name, attrs), children)) == "<em>" + RenderedForest(children) + "</em>"
  {
    ItalicIsNotKept(name);
    KeptTagsAre(name);
    LiteralTags();
    RenderedAround(Node(Element(true, name, attrs), children));
  }

  /** `hr` has no end tag: what it holds follows the rule. */
  lemma RuleElement(name: string, attrs: seq<Attr>, children: seq<Node>)
    requires name == "hr"
    ensures Filter(Node(Element(true, name, attrs), children)) == [Rule] + FilterAll(children)
    ensures Sanitized(Node(Element(true, name, attrs), children)) == "<hr>" + RenderedForest(children)
  {
    RuleIsNotKept(name);
    KeptTagsAre(name);
    RenderedAround(Node(Element(true, name, attrs), children));
  }

  predicate IsHref(attr: Attr) {
    !attr.namespaced && attr.name == "href"
  }

  lemma {:induction false} HrefIsLast(attrs: seq<Attr>, i: nat)
    requires i < |attrs| && IsHref(attrs[i]) && forall j :: i < j < |attrs| ==> !IsHref(attrs[j])
    ensures Href(attrs) == Some(attrs[i].value)
    decreases |attrs|
  {
    if i < |attrs| - 1 {
      HrefIsLast(attrs[..|attrs| - 1], i);
    }
  }

  lemma {:induction false} NoHref(attrs: seq<Attr>)
    requires forall j :: 0 <= j < |attrs| ==> !IsHref(attrs[j])
    ensures Href(attrs).None?
    decreases |attrs|
  {
    if attrs != [] {
      NoHref(attrs[..|attrs| - 1]);
    }
  }

  /** Main result: an `a` with an `href` in no namespace becomes a link with the value of
      the last one and without its other attributes. */
  lemma LinkElement(name: string, attrs: seq<Attr>, children: seq<Node>, i: nat)
    requires name == "a"
    requires i < |attrs| && !attrs[i].namespaced && attrs[i].name == "href"
    requires forall j :: i < j < |attrs| ==> attrs[j].namespaced || attrs[j].name != "href"
    ensures Filter(Node(Element(true, name, attrs), children))
         == [Tagged("a", Some(attrs[i].value), FilterAll(children))]
    ensures Sanitized(Node(Element(true, name, attrs), children))
         == "<a href=\"" + attrs[i].value + "\" rel=\"nofollow\">" + RenderedForest(children) + "</a>"
  {
    HrefIsLast(attrs, i);
    LinkTags(attrs[i].value);
    RenderedAround(Node(Element(true, name, attrs), children));
  }

  /** An `a` without one gives way to what it holds. */
  lemma PlainAnchor(name: string, attrs: seq<Attr>, children: seq<Node>)
    requires name == "a" && forall j :: 0 <= j < |attrs| ==> attrs[j].namespaced || attrs[j].name != "href"
    ensures Filter(Node(Element(true, name, attrs), children)) == FilterAll(children)
    ensures Sanitized(Node(Element(true, name, attrs), children)) == RenderedForest(children)
  {
    NoHref(attrs);
    RenderedAround(Node(Element(true, name, attrs), children));
  }

  /** Any other element gives way to what it holds. */
  lemma OtherElement(name: string, attrs: seq<Attr>, children: seq<Node>)
    requires !IsKept(name) && name != "a" && name != "hr" && name != "bold" && name != "i"
    ensures Filter(Node(Element(true, name, attrs), children)) == FilterAll(children)
    ensures Sanitized(Node(Element(true, name, attrs), children)) == RenderedForest(children)
  {
    KeptTagsAre(name);
    RenderedAround(Node(Element(true, name, attrs), children));
  }

  /** So does an element of another namespace, whatever its name, and every node that
      is neither an element nor text; a text is printed as it is. */
  lemma OtherNode(n: Node)
    requires !(n.data.Element? && n.data.isHtml)
    ensures Filter(n) == (if n.data.Text? then [Chars(n.data.contents)] else []) + FilterAll(n.children)
    ensures Sanitized(n) == (if n.data.Text? then n.data.contents else "") + RenderedForest(n.children)
  {
    RenderedAround(n);
  }

  // ---- What the output can contain --------------------------------------

  predicate AllowedTag(tag: string, href: Option<string>) {
    (tag in KEPT_TAGS && href.None?) || (tag == "a" && href.Some?)
  }

  predicate Allowed(c: Clean) {
    c.Tagged? ==> AllowedTag(c.tag, c.href) && forall k <- c.children :: Allowed(k)
  }

  predicate AllowedToken(t: Token) {
    match t
    case Open(tag, href) => AllowedTag(tag, href)
    case Close(tag) => tag in KEPT_TAGS || tag == "a"
    case _ => true
  }

  lemma {:induction false} FilteredIsAllowed(n: Node)
    ensures forall c <- Filter(n) :: Allowed(c)
    decreases n, 0
  {
    FilteredForestIsAllowed(n.children);
  }

  lemma {:induction false} FilteredForestIsAllowed(ns: seq<Node>)
    ensures forall c <- FilterAll(ns) :: Allowed(c)
    decreases ns
  {
    if ns != [] {
      FilteredIsAllowed(ns[0]);
      FilteredForestIsAllowed(ns[1..]);
    }
  }

  lemma {:induction false} PrintedIsAllowed(cs: seq<Clean>)
    requires forall c <- cs :: Allowed(c)
    ensures forall t <- PrintAll(cs) :: AllowedToken(t)
    decreases cs
  {
    if cs != [] {
      assert Allowed(cs[0]);
      if cs[0].Tagged? {
        PrintedIsAllowed(cs[0].children);
      }
      PrintedIsAllowed(cs[1..]);
    }
  }

  /** Only the listed tags are printed as tokens, and none but links carries an
      attribute. What the text itself may spell is another matter. */
  lemma OutputIsAllowed(n: Node)
    ensures forall t <- PrintAll(Filter(n)) :: AllowedToken(t)
  {
    FilteredIsAllowed(n);
    PrintedIsAllowed(Filter(n));
  }

  // ---- Nesting and parsing back -----------------------------------------

  /** The open tags after reading `ts`, innermost first; `None` once an end tag
      does not close the innermost open one. */
  function OpenTags(ts: seq<Token>, open: seq<string>): Option<seq<string>> {
    if ts == [] then Some(open)
    else
      match ts[0]
      case Open(tag, _) => OpenTags(ts[1..], [tag] + open)
      case Close(tag) => if open != [] && open[0] == tag then OpenTags(ts[1..], open[1..]) else None
      case _ => OpenTags(ts[1..], open)
  }

  /** Unfolds one tagged element at the head of a printed forest. */
  lemma {:induction false} TaggedAtHead(cs: seq<Clean>, tail: seq<Token>)
    requires cs != [] && cs[0].Tagged?
    ensures var c, ts := cs[0], PrintAll(cs) + tail;
            && ts != [] && ts[0] == Open(c.tag, c.href)
            && ts[1..] == PrintAll(c.children) + ([Close(c.tag)] + (PrintAll(cs[1..]) + tail))
  {
    var c, ts := cs[0], PrintAll(cs) + tail;
    var open, inner, close, after := [Open(c.tag, c.href)], PrintAll(c.children), [Close(c.tag)], PrintAll(cs[1..]);
    assert PrintAll(cs) == (open + inner + close) + after;
    Regroup(open + inner + close, after, tail);
    Regroup(open + inner, close, after + tail);
    Regroup(open, inner, close + (after + tail));
    assert ts == open + (inner + (close + (after + tail)));
  }

  lemma {:induction false} LeafAtHead(cs: seq<Clean>, tail: seq<Token>)
    requires cs != [] && !cs[0].Tagged?
    ensures var ts := PrintAll(cs) + tail;
            && ts != [] && [ts[0]] == Print(cs[0])
            && ts[1..] == PrintAll(cs[1..]) + tail
  {
    assert |Print(cs[0])| == 1;
    Regroup(Print(cs[0]), PrintAll(cs[1..]), tail);
  }

  lemma {:induction false} PrintKeepsOpenTags(cs: seq<Clean>, tail: seq<Token>, open: seq<string>)
    ensures OpenTags(PrintAll(cs) + tail, open) == OpenTags(tail, open)
    decreases cs
  {
    if cs == [] {
      assert PrintAll(cs) + tail == tail;
    } else {
      var after := PrintAll(cs[1..]) + tail;
      var ts := PrintAll(cs) + tail;
      if cs[0].Tagged? {
        var tag := cs[0].tag;
        TaggedAtHead(cs, tail);
        PrintKeepsOpenTags(cs[0].children, [Close(tag)] + after, [tag] + open);
        assert ([Close(tag)] + after)[1..] == after && ([tag] + open)[1..] == open;
      } else {
        LeafAtHead(cs, tail);
      }
      PrintKeepsOpenTags(cs[1..], tail, open);
    }
  }

  /** Every tag that is opened is closed, in the right order. */
  lemma OutputIsWellNested(n: Node)
    ensures OpenTags(PrintAll(Filter(n)), []) == Some([])
  {
    PrintKeepsOpenTags(Filter(n), [], []);
    assert PrintAll(Filter(n)) + [] == PrintAll(Filter(n));
  }

  /** Reads a forest up to an end tag or the end of the tokens. */
  function ParseForest(ts: seq<Token>): (r: Option<(seq<Clean>, seq<Token>)>)
    ensures r.Some? ==> |r.value.1| <= |ts|
    decreases |ts|
  {
    if ts == [] then Some(([], ts))
    else
      match ts[0]
      case Close(_) => Some(([], ts))
      case Open(tag, href) =>
        (match ParseForest(ts[1..])
         case None => None
         case Some((children, rest)) =>
           if rest == [] || rest[0] != Close(tag) then None
           else Prepend(Tagged(tag, href, children), ParseForest(rest[1..])))
      case RuleToken => Prepend(Rule, ParseForest(ts[1..]))
      case CharsToken(text) => Prepend(Chars(text), ParseForest(ts[1..]))
  }

  function Prepend(c: Clean, r: Option<(seq<Clean>, seq<Token>)>): Option<(seq<Clean>, seq<Token>)> {
    match r
    case None => None
    case Some((cs, rest)) => Some(([c] + cs, rest))
  }

  lemma {:induction false} ParseUndoesPrint(cs: seq<Clean>, tail: seq<Token>)
    requires tail == [] || tail[0].Close?
    ensures ParseForest(PrintAll(cs) + tail) == Some((cs, tail))
    decreases cs
  {
    if cs == [] {
      assert PrintAll(cs) + tail == tail;
    } else {
      var after := PrintAll(cs[1..]) + tail;
      var ts := PrintAll(cs) + tail;
      ParseUndoesPrint(cs[1..], tail);
      if cs[0].Tagged? {
        var tag := cs[0].tag;
        TaggedAtHead(cs, tail);
        ParseUndoesPrint(cs[0].children, [Close(tag)] + after);
        assert ([Close(tag)] + after)[1..] == after;
      } else {
        LeafAtHead(cs, tail);
      }
      assert [cs[0]] + cs[1..] == cs;
    }
  }

  /** Main result: the printed tokens parse back to exactly the filtered forest. */
  lemma OutputParsesBack(n: Node)
    ensures ParseForest(PrintAll(Filter(n))) == Some((Filter(n), []))
  {
    ParseUndoesPrint(Filter(n), []);
    assert PrintAll(Filter(n)) + [] == PrintAll(Filter(n));
  }

  // ---- Text ------------------------------------------------------------

  /** All the text below a node, in document order. */
  function TextOf(n: Node): string {
    (if n.data.Text? then n.data.contents else "") + TextOfAll(n.children)
  }

  function TextOfAll(ns: seq<Node>): string {
    if ns == [] then "" else TextOf(ns[0]) + TextOfAll(ns[1..])
  }

  function TextOfTokens(ts: seq<Token>): string {
    if ts == [] then "" else (if ts[0].CharsToken? then ts[0].text else "") + TextOfTokens(ts[1..])
  }

  lemma {:induction false} TextConcat(a: seq<Token>, b: seq<Token>)
    ensures TextOfTokens(a + b) == TextOfTokens(a) + TextOfTokens(b)
  {
    if a == [] {
      assert a + b == b;
    } else {
      assert (a + b)[1..] == a[1..] + b;
      TextConcat(a[1..], b);
    }
  }

  lemma WrapAddsOwnText(s: Shape, inner: seq<Clean>)
    ensures TextOfTokens(PrintAll(Wrap(s, inner)))
         == (if s.OwnText? then s.text else "") + TextOfTokens(PrintAll(inner))
  {
    match s
    case Nothing =>
    case OwnText(text) =>
      PrintConcat([Chars(text)], inner);
      TextConcat([CharsToken(text)], PrintAll(inner));
    case OwnRule =>
      PrintConcat([Rule], inner);
      TextConcat([RuleToken], PrintAll(inner));
    case Wrapper(tag, href) =>
      assert PrintAll(Wrap(s, inner)) == [Open(tag, href)] + PrintAll(inner) + [Close(tag)];
      TextConcat([Open(tag, href)] + PrintAll(inner), [Close(tag)]);
      TextConcat([Open(tag, href)], PrintAll(inner));
  }

  /** No text is lost, added or moved. */
  lemma {:induction false} TextIsKept(n: Node)
    ensures TextOfTokens(PrintAll(Filter(n))) == TextOf(n)
    decreases n, 0
  {
    ForestTextIsKept(n.children);
    WrapAddsOwnText(ShapeOf(n.data), FilterAll(n.children));
  }

  lemma {:induction false} ForestTextIsKept(ns: seq<Node>)
    ensures TextOfTokens(PrintAll(FilterAll(ns))) == TextOfAll(ns)
    decreases ns
  {
    if ns != [] {
      TextIsKept(ns[0]);
      ForestTextIsKept(ns[1..]);
      PrintConcat(Filter(ns[0]), FilterAll(ns[1..]));
      TextConcat(PrintAll(Filter(ns[0])), PrintAll(FilterAll(ns[1..])));
    }
  }

  // ---- Filtering twice ---------------------------------------------------

  /** The document node that a piece of sanitised output stands for. */
  function AsNode(c: Clean): Node {
    match c
    case Chars(text) => Node(Text(text), [])
    case Rule => Node(Element(true, "hr", []), [])
    case Tagged(tag, None, children) => Node(Element(true, tag, []), AsNodes(children))
    case Tagged(tag, Some(href), children) =>
      Node(Element(true, tag, [Attr(false, "href", href), Attr(false, "rel", "nofollow")]), AsNodes(children))
  }

  function AsNodes(cs: seq<Clean>): seq<Node> {
    if cs == [] then [] else [AsNode(cs[0])] + AsNodes(cs[1..])
  }

  lemma ShapeOfAllowed(c: Clean)
    requires c.Tagged? && AllowedTag(c.tag, c.href)
    ensures ShapeOf(AsNode(c).data) == Wrapper(c.tag, c.href)
  {
    if c.href.Some? {
      var attrs := AsNode(c).data.attrs;
      assert attrs[..1] == [Attr(false, "href", c.href.value)];
      assert Href(attrs) == Href(attrs[..1]) == c.href;
    }
  }

  lemma {:induction false} AllowedIsFixed(cs: seq<Clean>)
    requires forall c <- cs :: Allowed(c)
    ensures FilterAll(AsNodes(cs)) == cs
    decreases cs
  {
    if cs != [] {
      var c := cs[0];
      assert Allowed(c);
      if c.Tagged? {
        AllowedIsFixed(c.children);
        ShapeOfAllowed(c);
      }
      assert Filter(AsNode(c)) == [c];
      AllowedIsFixed(cs[1..]);
      assert AsNodes(cs)[1..] == AsNodes(cs[1..]);
    }
  }

  /** Main result: the forest that was let through, taken as a document again, is let
      through whole. This is about the forest: its printed string may read as
      another document, because text is printed as it is. */
  lemma FilterTwice(n: Node)
    ensures Filter(Node(Document, AsNodes(Filter(n)))) == Filter(n)
    ensures Sanitized(Node(Document, AsNodes(Filter(n)))) == Sanitized(n)
  {
    FilteredIsAllowed(n);
    AllowedIsFixed(Filter(n));
  }

  // ---- The printed string read back -----------------------------------------

  /** What a reader of the string sees: text, tags with their attributes, or a tag
      whose attributes do not follow the form name="value". */
  datatype Piece =
    | Words(text: string)
    | Tag(name: string, attributes: seq<(string, string)>)
    | Broken(rest: string)

  /** The attributes of a tag and what follows it, if they follow that form. */
  datatype AttributesRead = Unreadable | Attributes(values: seq<(string, string)>, rest: string)

  /** How far it is to the first of two characters. */
  function Until(s: string, a: char, b: char): (n: nat)
    ensures n <= |s|
  {
    if s == "" || s[0] == a || s[0] == b then 0 else 1 + Until(s[1..], a, b)
  }

  function ReadAttributes(s: string): (r: AttributesRead)
    ensures r.Attributes? ==> |r.rest| < |s|
    decreases |s|
  {
    if s == "" then Unreadable
    else if s[0] == '>' then Attributes([], s[1..])
    else
      var named := Until(s, '=', '=');
      if s[0] != ' ' || named == 0 || named + 1 >= |s| || s[named + 1] != '"' then Unreadable
      else
        var quoted := s[named + 2..];
        var n := Until(quoted, '"', '"');
        if n == |quoted| then Unreadable else Preceded((s[1..named], quoted[..n]), ReadAttributes(quoted[n + 1..]))
  }

  function Preceded(attribute: (string, string), r: AttributesRead): AttributesRead {
    if r.Unreadable? then r else Attributes([attribute] + r.values, r.rest)
  }

  /** Reads the string from the front, a tag at each bracket. */
  function Read(s: string): seq<Piece>
    decreases |s|
  {
    if s == "" then []
    else if s[0] == '<' then
      var n := 1 + Until(s[1..], ' ', '>');
      var r := ReadAttributes(s[n..]);
      if r.Unreadable? then [Broken(s)] else [Tag(s[1..n], r.values)] + Read(r.rest)
    else
      var n := Until(s, '<', '<');
      [Words(s[..n])] + Read(s[n..])
  }

  /** The tag a token stands for. */
  function TagOf(t: Token): Piece
    requires !t.CharsToken?
  {
    match t
    case RuleToken => Tag("hr", [])
    case Open(tag, None) => Tag(tag, [])
    case Open(tag, Some(href)) => Tag(tag, [("href", href), ("rel", "nofollow")])
    case Close(tag) => Tag("/" + tag, [])
  }

  /** Text ahead of pieces; texts that touch are read as one. */
  function Glue(text: string, pieces: seq<Piece>): seq<Piece> {
    if text == "" then pieces
    else if pieces != [] && pieces[0].Words? then [Words(text + pieces[0].text)] + pieces[1..]
    else [Words(text)] + pieces
  }

  /** What was meant by printing these tokens. */
  function Meant(ts: seq<Token>): seq<Piece> {
    if ts == [] then []
    else if ts[0].CharsToken? then Glue(ts[0].text, Meant(ts[1..]))
    else [TagOf(ts[0])] + Meant(ts[1..])
  }

  /** A text without brackets, or a link without quotes. */
  predicate Faithful(t: Token) {
    match t
    case CharsToken(text) => '<' !in text
    case Open(_, Some(href)) => '"' !in href
    case _ => true
  }

  lemma {:induction false} UntilPasses(s: string, t: string, a: char, b: char)
    requires a !in s && b !in s && (t != "" ==> t[0] == a || t[0] == b)
    ensures Until(s + t, a, b) == |s|
  {
    if s == "" {
      assert s + t == t;
    } else {
      assert (s + t)[1..] == s[1..] + t;
      UntilPasses(s[1..], t, a, b);
    }
  }

  lemma Parts(s: string, t: string)
    ensures (s + t)[..|s|] == s && (s + t)[|s|..] == t
  {
  }

  /** One attribute ahead of a text, as printed. */
  function Attributed(name: string, value: string, after: string): string {
    (" " + name) + ("=\"" + (value + ("\"" + after)))
  }

  lemma AttributedStarts(name: string, value: string, after: string)
    ensures Attributed(name, value, after) != "" && Attributed(name, value, after)[0] == ' '
  {
  }

  /** Reading gets past one well-formed attribute. */
  lemma AttributeReads(name: string, value: string, rest: string)
    requires '=' !in name && '"' !in value
    ensures ReadAttributes(Attributed(name, value, rest)) == Preceded((name, value), ReadAttributes(rest))
  {
    var after := "\"" + rest;
    var quoted := value + after;
    var head, tail := " " + name, "=\"" + quoted;
    UntilPasses(head, tail, '=', '=');
    UntilPasses(value, after, '"', '"');
    Parts("\"", rest);
    Parts(value, after);
    AttributeStep(head, quoted, name, value, rest);
  }

  lemma AttributeStep(head: string, quoted: string, name: string, value: string, rest: string)
    requires head == " " + name && Until(head + ("=\"" + quoted), '=', '=') == |head|
    requires Until(quoted, '"', '"') == |value| < |quoted|
    requires quoted[..|value|] == value && quoted[|value| + 1..] == rest
    ensures ReadAttributes(head + ("=\"" + quoted)) == Preceded((name, value), ReadAttributes(rest))
  {
    var s := head + ("=\"" + quoted);
    assert s[0] == ' ' && s[|head| + 1] == '"';
    assert s[|head| + 2..] == quoted;
    assert s[1..|head|] == name;
  }

  /** Reading gets past a tag's name. */
  lemma NameReads(name: string, rest: string)
    requires ' ' !in name && '>' !in name && rest != "" && (rest[0] == ' ' || rest[0] == '>')
    requires ReadAttributes(rest).Attributes?
    ensures var r := ReadAttributes(rest);
            Read("<" + (name + rest)) == [Tag(name, r.values)] + Read(r.rest)
  {
    UntilPasses(name, rest, ' ', '>');
    Parts("<", name + rest);
    Parts(name, rest);
    NameStep("<" + (name + rest), name, rest);
  }

  lemma NameStep(s: string, name: string, rest: string)
    requires s != "" && s[0] == '<' && s[1..] == name + rest && Until(s[1..], ' ', '>') == |name|
    requires s[1..|name| + 1] == name && s[|name| + 1..] == rest && ReadAttributes(rest).Attributes?
    ensures Read(s) == [Tag(name, ReadAttributes(rest).values)] + Read(ReadAttributes(rest).rest)
  {
  }

  lemma BareTagReads(name: string, rest: string)
    requires ' ' !in name && '>' !in name
    ensures Read(("<" + name + ">") + rest) == [Tag(name, [])] + Read(rest)
  {
    Parts(">", rest);
    assert ReadAttributes(">" + rest) == Attributes([], rest);
    NameReads(name, ">" + rest);
    Regroup("<" + name, ">", rest);
    Regroup("<", name, ">" + rest);
  }

  lemma TextReads(text: string, rest: string)
    requires '<' !in text
    ensures Read(text + rest) == Glue(text, Read(rest))
  {
    if text == "" {
      assert text + rest == rest;
    } else {
      var n := Until(rest, '<', '<');
      TextSplits(text, rest);
      TextStep(text + rest, text + rest[..n], rest[n..]);
      GluesTo(text, rest, n);
    }
  }

  lemma TextSplits(text: string, rest: string)
    requires '<' !in text
    ensures var n := Until(rest, '<', '<');
            && Until(text + rest, '<', '<') == |text + rest[..n]|
            && (text + rest)[..|text + rest[..n]|] == text + rest[..n]
            && (text + rest)[|text + rest[..n]|..] == rest[n..]
  {
    var n := Until(rest, '<', '<');
    UntilStops(rest, '<');
    Regroup(text, rest[..n], rest[n..]);
    assert rest[..n] + rest[n..] == rest;
    UntilPasses(text + rest[..n], rest[n..], '<', '<');
    Parts(text + rest[..n], rest[n..]);
  }

  lemma {:induction false} UntilStops(s: string, a: char)
    ensures var n := Until(s, a, a);
            a !in s[..n] && (n < |s| ==> s[n] == a)
  {
    if s != "" && s[0] != a {
      UntilStops(s[1..], a);
      var n := Until(s[1..], a, a);
      assert s[..n + 1] == [s[0]] + s[1..][..n];
    }
  }

  lemma TextStep(s: string, text: string, rest: string)
    requires s != "" && s[0] != '<' && Until(s, '<', '<') == |text| && s[..|text|] == text && s[|text|..] == rest
    ensures Read(s) == [Words(text)] + Read(rest)
  {
  }

  lemma GluesTo(text: string, rest: string, n: nat)
    requires text != "" && n == Until(rest, '<', '<')
    ensures Glue(text, Read(rest)) == [Words(text + rest[..n])] + Read(rest[n..])
  {
    if n == 0 {
      assert rest[..n] == "" && rest[n..] == rest && text + "" == text;
      assert rest == "" || rest[0] == '<';
      assert Read(rest) == [] || !Read(rest)[0].Words?;
    } else {
      TextStep(rest, rest[..n], rest[n..]);
    }
  }

  /** A link as it is printed, part by part. */
  lemma LinkText(tag: string, href: string, rest: string)
    ensures RenderToken(Open(tag, Some(href))) + rest ==
            "<" + (tag + Attributed("href", href, RelText(rest)))
  {
    var start, rel := " href=\"", "\" rel=\"nofollow\">";
    assert start == (" " + "href") + "=\"";
    RelParts(rest);
    Regroup("<" + tag + start + href, rel, rest);
    Regroup("<" + tag + start, href, rel + rest);
    Regroup("<" + tag, start, href + (rel + rest));
    Regroup(" " + "href", "=\"", href + (rel + rest));
    Regroup("<", tag, start + (href + (rel + rest)));
  }

  function RelText(rest: string): string {
    Attributed("rel", "nofollow", ">" + rest)
  }

  lemma RelParts(rest: string)
    ensures "\" rel=\"nofollow\">" + rest == "\"" + RelText(rest)
  {
    var named, given := " " + "rel", "=\"";
    assert "\" rel=\"nofollow\">" == "\"" + (named + given + "nofollow" + "\"" + ">");
    Regroup("\"", named + given + "nofollow" + "\"" + ">", rest);
    Regroup(named + given + "nofollow" + "\"", ">", rest);
    Regroup(named + given + "nofollow", "\"", ">" + rest);
    Regroup(named + given, "nofollow", "\"" + (">" + rest));
    Regroup(named, given, "nofollow" + ("\"" + (">" + rest)));
  }

  lemma RelReads(rest: string)
    ensures ReadAttributes(RelText(rest)) == Attributes([("rel", "nofollow")], rest)
  {
    Parts(">", rest);
    AttributeReads("rel", "nofollow", ">" + rest);
  }

  lemma LinkAttributesRead(href: string, after: string, rest: string)
    requires '"' !in href && ReadAttributes(after) == Attributes([("rel", "nofollow")], rest)
    ensures ReadAttributes(Attributed("href", href, after)) == Attributes([("href", href), ("rel", "nofollow")], rest)
  {
    AttributeReads("href", href, after);
  }

  lemma LinkReads(tag: string, href: string, rest: string)
    requires ' ' !in tag && '>' !in tag && '"' !in href
    ensures Read(RenderToken(Open(tag, Some(href))) + rest) ==
            [Tag(tag, [("href", href), ("rel", "nofollow")])] + Read(rest)
  {
    var after := RelText(rest);
    RelReads(rest);
    LinkAttributesRead(href, after, rest);
    AttributedStarts("href", href, after);
    NameReads(tag, Attributed("href", href, after));
    LinkText(tag, href, rest);
  }

  lemma AllowedNameReads(tag: string)
    requires tag in KEPT_TAGS || tag == "a"
    ensures ' ' !in tag && '>' !in tag
  {
  }

  lemma TagReads(t: Token, rest: string)
    requires AllowedToken(t) && Faithful(t) && !t.CharsToken?
    ensures Read(RenderToken(t) + rest) == [TagOf(t)] + Read(rest)
  {
    match t
    case RuleToken =>
      assert "<hr>" == "<" + "hr" + ">";
      BareTagReads("hr", rest);
    case Open(tag, None) =>
      AllowedNameReads(tag);
      BareTagReads(tag, rest);
    case Open(tag, Some(href)) =>
      AllowedNameReads(tag);
      LinkReads(tag, href, rest);
    case Close(tag) =>
      AllowedNameReads(tag);
      Parts("/", tag);
      assert "</" + tag == "<" + ("/" + tag);
      BareTagReads("/" + tag, rest);
  }

  lemma {:induction false} FaithfulReads(ts: seq<Token>)
    requires forall t <- ts :: AllowedToken(t) && Faithful(t)
    ensures Read(Render(ts)) == Meant(ts)
  {
    if ts != [] {
      FaithfulReads(ts[1..]);
      assert Faithful(ts[0]);
      if ts[0].CharsToken? {
        TextReads(ts[0].text, Render(ts[1..]));
      } else {
        TagReads(ts[0], Render(ts[1..]));
      }
    }
  }

  // ---- When the string reads as meant -----------------------------------------

  /** What reading can give: text never holds a bracket, a value never a quote. */
  predicate CanBeRead(p: Piece) {
    match p
    case Words(text) => '<' !in text
    case Tag(_, attributes) => forall a <- attributes :: '"' !in a.1
    case Broken(_) => true
  }

  predicate Unquoted(r: AttributesRead) {
    r.Attributes? ==> forall a <- r.values :: '"' !in a.1
  }

  lemma UnquotedPreceded(attribute: (string, string), r: AttributesRead)
    requires '"' !in attribute.1 && Unquoted(r)
    ensures Unquoted(Preceded(attribute, r))
  {
  }

  lemma {:induction false} AttributesCanBeRead(s: string)
    ensures Unquoted(ReadAttributes(s))
    decreases |s|
  {
    if s != "" && s[0] != '>' {
      var named := Until(s, '=', '=');
      if s[0] == ' ' && named != 0 && named + 1 < |s| && s[named + 1] == '"' {
        var quoted := s[named + 2..];
        var n := Until(quoted, '"', '"');
        if n < |quoted| {
          UntilStops(quoted, '"');
          AttributesCanBeRead(quoted[n + 1..]);
          UnquotedPreceded((s[1..named], quoted[..n]), ReadAttributes(quoted[n + 1..]));
        }
      }
    }
  }

  predicate AllCanBeRead(pieces: seq<Piece>) {
    forall p <- pieces :: CanBeRead(p)
  }

  lemma FirstCanBeRead(p: Piece, pieces: seq<Piece>)
    requires CanBeRead(p) && AllCanBeRead(pieces)
    ensures AllCanBeRead([p] + pieces)
  {
  }

  lemma TextCanBeRead(s: string, n: nat)
    requires s != "" && s[0] != '<' && n == Until(s, '<', '<') && AllCanBeRead(Read(s[n..]))
    ensures AllCanBeRead(Read(s))
  {
    UntilStops(s, '<');
    FirstCanBeRead(Words(s[..n]), Read(s[n..]));
    TextStep(s, s[..n], s[n..]);
  }

  lemma TagCanBeRead(s: string, n: nat, r: AttributesRead)
    requires s != "" && s[0] == '<' && n == 1 + Until(s[1..], ' ', '>') && r == ReadAttributes(s[n..])
    requires r.Attributes? ==> AllCanBeRead(Read(r.rest))
    ensures AllCanBeRead(Read(s))
  {
    AttributesCanBeRead(s[n..]);
    if r.Attributes? {
      FirstCanBeRead(Tag(s[1..n], r.values), Read(r.rest));
    }
  }

  lemma {:induction false} PiecesCanBeRead(s: string)
    ensures AllCanBeRead(Read(s))
    decreases |s|
  {
    if s != "" {
      if s[0] == '<' {
        var n := 1 + Until(s[1..], ' ', '>');
        var r := ReadAttributes(s[n..]);
        if r.Attributes? {
          PiecesCanBeRead(r.rest);
        }
        TagCanBeRead(s, n, r);
      } else {
        var n := Until(s, '<', '<');
        PiecesCanBeRead(s[n..]);
        TextCanBeRead(s, n);
      }
    }
  }

  lemma GluedFaithful(text: string, pieces: seq<Piece>)
    requires AllCanBeRead(Glue(text, pieces))
    ensures '<' !in text && AllCanBeRead(pieces)
  {
    if text != "" {
      assert CanBeRead(Glue(text, pieces)[0]);
      if pieces != [] && pieces[0].Words? {
        assert Glue(text, pieces)[1..] == pieces[1..];
        assert pieces == [pieces[0]] + pieces[1..];
        var both := text + pieces[0].text;
        assert forall c <- text :: c in both;
        assert forall c <- pieces[0].text :: c in both;
      } else {
        assert Glue(text, pieces)[1..] == pieces;
      }
    }
  }

  lemma {:induction false} MeantIsFaithful(ts: seq<Token>)
    requires AllCanBeRead(Meant(ts))
    ensures forall t <- ts :: Faithful(t)
  {
    if ts != [] {
      var t := ts[0];
      if t.CharsToken? {
        GluedFaithful(t.text, Meant(ts[1..]));
      } else {
        assert CanBeRead(Meant(ts)[0]);
        assert Meant(ts)[1..] == Meant(ts[1..]);
        if t.Open? && t.href.Some? {
          assert ("href", t.href.value) in TagOf(t).attributes;
        }
      }
      MeantIsFaithful(ts[1..]);
      assert ts == [t] + ts[1..];
    }
  }

  /** No text below the node holds a bracket, and no link it keeps a quote. */
  predicate Plain(n: Node) {
    && (match ShapeOf(n.data)
        case OwnText(text) => '<' !in text
        case Wrapper(_, Some(href)) => '"' !in href
        case _ => true)
    && forall child <- n.children :: Plain(child)
  }

  predicate AllFaithful(ts: seq<Token>) {
    forall t <- ts :: Faithful(t)
  }

  lemma FaithfulConcat(a: seq<Token>, b: seq<Token>)
    ensures AllFaithful(a + b) <==> AllFaithful(a) && AllFaithful(b)
  {
    assert forall t <- a :: t in a + b;
    assert forall t <- b :: t in a + b;
  }

  lemma WrapIsFaithful(s: Shape, inner: seq<Clean>)
    ensures AllFaithful(PrintAll(Wrap(s, inner))) <==>
            && AllFaithful(PrintAll(inner))
            && (match s
                case OwnText(text) => '<' !in text
                case Wrapper(_, Some(href)) => '"' !in href
                case _ => true)
  {
    match s
    case Nothing =>
    case OwnText(text) =>
      PrintConcat([Chars(text)], inner);
      FaithfulConcat([CharsToken(text)], PrintAll(inner));
      assert AllFaithful([CharsToken(text)]) <==> Faithful([CharsToken(text)][0]);
    case OwnRule =>
      PrintConcat([Rule], inner);
      FaithfulConcat([RuleToken], PrintAll(inner));
    case Wrapper(tag, href) =>
      var open, close := [Open(tag, href)], [Close(tag)];
      assert PrintAll(Wrap(s, inner)) == open + PrintAll(inner) + close;
      FaithfulConcat(open + PrintAll(inner), close);
      FaithfulConcat(open, PrintAll(inner));
      assert AllFaithful(open) <==> Faithful(open[0]);
  }

  lemma {:induction false} PlainPrintsFaithfully(n: Node)
    ensures Plain(n) <==> AllFaithful(PrintAll(Filter(n)))
    decreases n, 0
  {
    PlainForestPrintsFaithfully(n.children);
    WrapIsFaithful(ShapeOf(n.data), FilterAll(n.children));
  }

  lemma {:induction false} PlainForestPrintsFaithfully(ns: seq<Node>)
    ensures (forall n <- ns :: Plain(n)) <==> AllFaithful(PrintAll(FilterAll(ns)))
    decreases ns
  {
    if ns != [] {
      PlainPrintsFaithfully(ns[0]);
      PlainForestPrintsFaithfully(ns[1..]);
      PrintConcat(Filter(ns[0]), FilterAll(ns[1..]));
      FaithfulConcat(PrintAll(Filter(ns[0])), PrintAll(FilterAll(ns[1..])));
      assert ns == [ns[0]] + ns[1..];
    }
  }

  /** Main result, about the string itself: read back, it shows exactly the tags and
      attributes that were printed, and the text around them, if and only if no
      text holds a bracket and no link that is kept holds a quote. */
  lemma ReadsAsMeantExactly(n: Node)
    ensures Read(Sanitized(n)) == Meant(PrintAll(Filter(n))) <==> Plain(n)
  {
    var ts := PrintAll(Filter(n));
    PlainPrintsFaithfully(n);
    if Plain(n) {
      OutputIsAllowed(n);
      FaithfulReads(ts);
    }
    if Read(Sanitized(n)) == Meant(ts) {
      PiecesCanBeRead(Sanitized(n));
      MeantIsFaithful(ts);
    }
  }

  /** A tag that may be seen in the string: `href` and `rel` on links, nothing on
      others. */
  predicate AllowedPiece(p: Piece) {
    match p
    case Words(_) => true
    case Broken(_) => false
    case Tag(name, attributes) =>
      if attributes == [] then
        name in KEPT_TAGS || name == "hr" || (name != "" && name[0] == '/' && IsLetThrough(name[1..]))
      else name == "a" && |attributes| == 2 && attributes[0].0 == "href" && attributes[1] == ("rel", "nofollow")
  }

  predicate IsLetThrough(tag: string) {
    tag in KEPT_TAGS || tag == "a"
  }

  lemma TagIsAllowed(t: Token)
    requires AllowedToken(t) && !t.CharsToken?
    ensures AllowedPiece(TagOf(t))
  {
    if t.Close? {
      assert ("/" + t.tag)[1..] == t.tag;
    }
  }

  lemma {:induction false} MeantIsAllowed(ts: seq<Token>)
    requires forall t <- ts :: AllowedToken(t)
    ensures forall p <- Meant(ts) :: AllowedPiece(p)
  {
    if ts != [] {
      MeantIsAllowed(ts[1..]);
      if !ts[0].CharsToken? {
        TagIsAllowed(ts[0]);
      } else {
        var pieces := Meant(ts[1..]);
        assert forall p <- Glue(ts[0].text, pieces) :: p.Words? || p in pieces;
      }
    }
  }

  /** Main result: under that condition the string shows only allowed tags, with only
      `href` and `rel` on links. */
  lemma OnlyAllowedTagsAreRead(n: Node)
    requires Plain(n)
    ensures forall p <- Read(Sanitized(n)) :: AllowedPiece(p)
  {
    ReadsAsMeantExactly(n);
    OutputIsAllowed(n);
    MeantIsAllowed(PrintAll(Filter(n)));
  }

  // ---- Where it does not ------------------------------------------------------

  /** Text can spell a tag that is not allowed. */
  lemma TextShowsTagExample()
    ensures var n := Node(Text("<script>"), []);
            Read(Sanitized(n)) == [Tag("script", [])] && !Plain(n)
  {
    var n := Node(Text("<script>"), []);
    assert FilterAll([]) == [] && Filter(n) == [Chars("<script>")];
    assert PrintAll(Filter(n)) == [CharsToken("<script>")];
    assert Render([CharsToken("<script>")]) == "<script>";
    assert "<script>" == ("<" + "script" + ">") + "";
    BareTagReads("script", "");
    assert "<script>"[0] == '<';
  }

  /** A link whose value goes on after a quote. */
  function QuotedHref(value: string, name: string, other: string): string {
    value + ("\"" + ((" " + name) + ("=\"" + other)))
  }

  lemma QuotedParts(value: string, name: string, other: string, after: string)
    ensures Attributed("href", QuotedHref(value, name, other), after) ==
            Attributed("href", value, Attributed(name, other, after))
  {
    var tail := "\"" + after;
    Regroup(value, "\"" + ((" " + name) + ("=\"" + other)), tail);
    Regroup("\"", (" " + name) + ("=\"" + other), tail);
    Regroup(" " + name, "=\"" + other, tail);
    Regroup("=\"", other, tail);
  }

  lemma QuotedAttributesRead(value: string, name: string, other: string, after: string, rest: string)
    requires '"' !in value && '=' !in name && '"' !in other
    requires ReadAttributes(after) == Attributes([("rel", "nofollow")], rest)
    ensures ReadAttributes(Attributed("href", value, Attributed(name, other, after))) ==
            Attributes([("href", value), (name, other), ("rel", "nofollow")], rest)
  {
    AttributeReads(name, other, after);
    AttributeReads("href", value, Attributed(name, other, after));
  }

  /** A quote in a link ends its value, and what follows may be another attribute. */
  lemma QuoteShowsAttribute(value: string, name: string, other: string, rest: string)
    requires '"' !in value && '=' !in name && '"' !in other
    ensures Read(RenderToken(Open("a", Some(QuotedHref(value, name, other)))) + rest) ==
            [Tag("a", [("href", value), (name, other), ("rel", "nofollow")])] + Read(rest)
  {
    RelReads(rest);
    LinkText("a", QuotedHref(value, name, other), rest);
    QuotedParts(value, name, other, RelText(rest));
    QuotedAttributesRead(value, name, other, RelText(rest), rest);
    AttributedStarts("href", value, Attributed(name, other, RelText(rest)));
    NameReads("a", Attributed("href", value, Attributed(name, other, RelText(rest))));
  }

  function LinkNode(href: string): Node {
    Node(Element(true, "a", [Attr(false, "href", href)]), [])
  }

  lemma LinkNodeSanitizes(href: string)
    ensures Sanitized(LinkNode(href)) == RenderToken(Open("a", Some(href))) + RenderToken(Close("a"))
    ensures Plain(LinkNode(href)) <==> '"' !in href
  {
    var n := LinkNode(href);
    assert Href(n.data.attrs) == Some(href) && FilterAll([]) == [];
    assert Filter(n) == [Tagged("a", Some(href), [])];
    assert PrintAll(Filter(n)) == [Open("a", Some(href)), Close("a")];
    assert Render([Close("a")]) == RenderToken(Close("a"));
    assert [Open("a", Some(href)), Close("a")][1..] == [Close("a")];
  }

  lemma LinkEndReads(end: string)
    requires end == RenderToken(Close("a"))
    ensures Read(end) == [Tag("/a", [])]
  {
    assert end == ("<" + "/a" + ">") + "";
    BareTagReads("/a", "");
  }

  lemma QuotedLinkReads(value: string, name: string, other: string)
    requires '"' !in value && '=' !in name && '"' !in other
    ensures var n := LinkNode(QuotedHref(value, name, other));
            && Read(Sanitized(n)) == [Tag("a", [("href", value), (name, other), ("rel", "nofollow")]), Tag("/a", [])]
            && !Plain(n)
  {
    var href, end := QuotedHref(value, name, other), RenderToken(Close("a"));
    LinkNodeSanitizes(href);
    QuoteShowsAttribute(value, name, other, end);
    LinkEndReads(end);
    assert href[|value|] == '"';
  }

  /** A link to `x" title="y` is shown with a title. */
  lemma QuoteShowsAttributeExample(href: string)
    requires href == "x\" title=\"y"
    ensures Read(Sanitized(LinkNode(href))) ==
            [Tag("a", [("href", "x"), ("title", "y"), ("rel", "nofollow")]), Tag("/a", [])]
    ensures !Plain(LinkNode(href))
  {
    QuotedIs(href);
    QuotedLinkReads("x", "title", "y");
  }

  lemma QuotedIs(href: string)
    requires href == "x\" title=\"y"
    ensures href == QuotedHref("x", "title", "y")
  {
  }
}
