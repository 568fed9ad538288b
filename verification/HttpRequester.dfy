/** Following redirects, and the URI reported at the end of them. */
module HttpRequester {
  import opened Wrappers

  datatype Response =
    | Unreachable
    | Response(status: int, location: Option<string>, gzipped: bool, body: Option<Bytes>)

  /** The outside world: the response to the `n`-th request of a fetch, URI
      syntax, and the decompressor. A `body` of `None` could not be read. */
  datatype Network = Network(
    respond: (string, nat) -> Response,
    parseUri: string -> Option<string>,
    gunzip: Bytes -> Option<Bytes>)

  datatype Request = Request(verb: string, uri: string, acceptGzip: bool, userAgent: string)

  datatype Fetched = Fetched(status: int, body: Bytes, uri: string)

  datatype Error = RedirectLimit | NoResponse | BadLocation | NoLocation | BadBody

  const REDIRECT_LIMIT := 5
  const PERMANENT_REDIRECT := 308

  predicate IsRedirection(status: int) {
    300 <= status < 400
  }

  function NewUri(net: Network, location: Option<string>): Result<string, Error> {
    match location
    case None => Err(NoLocation)
    case Some(l) => match net.parseUri(l) case Some(uri) => Ok(uri) case None => Err(BadLocation)
  }

  function DecodedBody(net: Network, res: Response): Result<Bytes, Error>
    requires res.Response?
  {
    match res.body
    case None => Err(BadBody)
    case Some(b) =>
      if !res.gzipped then Ok(b)
      else match net.gunzip(b) case Some(d) => Ok(d) case None => Err(BadBody)
  }

  // ---- The recursion -------------------------------------------------------

  /** What a fetch returns. `permanent` says whether the redirect to be judged is
      permanent, given the status of the response that redirected and the status
      that the rest of the fetch came back with. */
  function Follow(net: Network, permanent: (int, int) -> bool, uri: string, depth: nat): Result<Fetched, Error>
    decreases REDIRECT_LIMIT - depth
  {
    if depth >= REDIRECT_LIMIT then Err(RedirectLimit)
    else
      var res := net.respond(uri, depth);
      if res.Unreachable? then Err(NoResponse)
      else if IsRedirection(res.status) then
        var newUri :- NewUri(net, res.location);
        var last :- Follow(net, permanent, newUri, depth + 1);
        Ok(last.(uri := if permanent(res.status, last.status) then last.uri else uri))
      else
        var body :- DecodedBody(net, res);
        Ok(Fetched(res.status, body, uri))
  }

  /** As shipped, the inner `status` shadows the redirect's own. */
  predicate ShippedPermanent(status: int, lastStatus: int) {
    lastStatus == PERMANENT_REDIRECT
  }

  /** As the comment has it, the redirect itself must be permanent. */
  predicate IntendedPermanent(status: int, lastStatus: int) {
    status == PERMANENT_REDIRECT
  }

  function Shipped(net: Network, uri: string): Result<Fetched, Error> {
    Follow(net, ShippedPermanent, uri, 0)
  }

  function Intended(net: Network, uri: string): Result<Fetched, Error> {
    Follow(net, IntendedPermanent, uri, 0)
  }

  /** The URIs requested from some depth on. */
  function Requested(net: Network, uri: string, depth: nat): (uris: seq<string>)
    ensures |uris| <= if depth < REDIRECT_LIMIT then REDIRECT_LIMIT - depth else 0
    decreases REDIRECT_LIMIT - depth
  {
    if depth >= REDIRECT_LIMIT then []
    else
      var res := net.respond(uri, depth);
      if res.Response? && IsRedirection(res.status) && NewUri(net, res.location).Ok? then
        [uri] + Requested(net, NewUri(net, res.location).value, depth + 1)
      else [uri]
  }

  function Sent(verb: string, uris: seq<string>): seq<Request> {
    seq(|uris|, i requires 0 <= i < |uris| => Request(verb, uris[i], true, "Podcore/1.0"))
  }

  /** The live requester, which logs the requests it sends. */
  class Client {
    var sent: seq<Request>

    constructor ()
      ensures sent == []
    {
      sent := [];
    }

    /** Sends one fetch's requests and nothing else: never more than the limit,
        each with the caller's verb and the two fixed headers. */
    method ExecuteInner(net: Network, req: Request, redirectDepth: nat) returns (r: Result<Fetched, Error>)
      modifies this
      ensures r == Follow(net, ShippedPermanent, req.uri, redirectDepth)
      ensures sent == old(sent) + Sent(req.verb, Requested(net, req.uri, redirectDepth))
      decreases REDIRECT_LIMIT - redirectDepth
    {
      if redirectDepth >= REDIRECT_LIMIT {
        return Err(RedirectLimit);
      }
      var uri := req.uri;
      sent := sent + [req.(acceptGzip := true, userAgent := "Podcore/1.0")];
      var res := net.respond(uri, redirectDepth);
      if res.Unreachable? {
        return Err(NoResponse);
      }
      if IsRedirection(res.status) {
        var newUri :- NewUri(net, res.location);
        var last :- ExecuteInner(net, Request(req.verb, newUri, false, ""), redirectDepth + 1);
        var lastUri := if last.status == PERMANENT_REDIRECT then last.uri else uri;
        return Ok(last.(uri := lastUri));
      }
      var body :- DecodedBody(net, res);
      return Ok(Fetched(res.status, body, uri));
    }

    method Execute(net: Network, req: Request) returns (r: Result<Fetched, Error>)
      modifies this
      ensures r == Shipped(net, req.uri)
      ensures sent == old(sent) + Sent(req.verb, Requested(net, req.uri, 0))
      ensures |sent| <= |old(sent)| + 5
      ensures forall i :: |old(sent)| <= i < |sent| ==>
                sent[i].verb == req.verb && sent[i].acceptGzip && sent[i].userAgent == "Podcore/1.0"
    {
      r := ExecuteInner(net, req, 0);
    }
  }

  // ---- When a fetch succeeds -------------------------------------------------

  /** The `n`-th response is a redirect with a location that is a URI. */
  predicate Redirects(net: Network, uri: string, n: nat, newUri: string) {
    var res := net.respond(uri, n);
    && res.Response? && 300 <= res.status < 400
    && res.location.Some? && net.parseUri(res.location.value) == Some(newUri)
  }

  ghost predicate NowhereToGo(net: Network, uri: string, n: nat) {
    forall newUri :: !Redirects(net, uri, n, newUri)
  }

  /** The `n`-th response is no redirect and its body, decompressed if it says it is
      compressed, can be read. */
  predicate Answers(net: Network, uri: string, n: nat, status: int, body: Bytes) {
    var res := net.respond(uri, n);
    && res.Response? && res.status == status && (status < 300 || status >= 400)
    && res.body.Some? && (if res.gzipped then net.gunzip(res.body.value) == Some(body) else res.body.value == body)
  }

  /** The URI reached after `n` redirects. */
  function Hop(net: Network, uri: string, depth: nat, n: nat): Option<string>
    decreases n
  {
    if n == 0 then Some(uri)
    else
      var res := net.respond(uri, depth);
      if res.Response? && res.location.Some? && net.parseUri(res.location.value).Some?
         && Redirects(net, uri, depth, net.parseUri(res.location.value).value)
      then Hop(net, net.parseUri(res.location.value).value, depth + 1, n - 1)
      else None
  }

  ghost predicate Settles(net: Network, uri: string, depth: nat, n: nat, status: int, body: Bytes) {
    Hop(net, uri, depth, n).Some? && Answers(net, Hop(net, uri, depth, n).value, depth + n, status, body)
  }

  /** The requests follow the redirects and stop where there is none to follow, or at
      the limit. */
  lemma {:induction false} RequestsFollowRedirects(net: Network, uri: string, depth: nat)
    requires depth < 5
    ensures var uris := Requested(net, uri, depth);
            && 1 <= |uris| <= 5 - depth && uris[0] == uri
            && (forall i :: 0 <= i < |uris| - 1 ==> Redirects(net, uris[i], depth + i, uris[i + 1]))
            && (|uris| < 5 - depth ==> NowhereToGo(net, uris[|uris| - 1], depth + |uris| - 1))
    decreases 5 - depth
  {
    var res := net.respond(uri, depth);
    if depth < 4 && res.Response? && IsRedirection(res.status) && NewUri(net, res.location).Ok? {
      var newUri := NewUri(net, res.location).value;
      RequestsFollowRedirects(net, newUri, depth + 1);
      var rest := Requested(net, newUri, depth + 1);
      assert Requested(net, uri, depth) == [uri] + rest;
      assert Redirects(net, uri, depth, newUri);
      forall i | 0 < i < |rest| ensures Redirects(net, rest[i - 1], depth + i, rest[i]) {
        assert Redirects(net, rest[i - 1], depth + 1 + (i - 1), rest[i - 1 + 1]);
      }
    } else {
      assert Requested(net, uri, depth) == [uri];
    }
  }

  /** A fetch succeeds exactly when a readable response that is no redirect is
      reached within the limit, whichever rule picks the URI; then that response
      is what it returns. */
  lemma {:induction false} SucceedsWithinLimit(
    net: Network, permanent: (int, int) -> bool, uri: string, depth: nat, status: int, body: Bytes)
    requires depth <= 5
    ensures (var r := Follow(net, permanent, uri, depth); r.Ok? && r.value.status == status && r.value.body == body)
            <==> exists n: nat :: n < 5 - depth && Settles(net, uri, depth, n, status, body)
    decreases 5 - depth
  {
    if depth < REDIRECT_LIMIT {
      var res := net.respond(uri, depth);
      if res.Response? && IsRedirection(res.status) {
        if NewUri(net, res.location).Ok? {
          var newUri := NewUri(net, res.location).value;
          SucceedsWithinLimit(net, permanent, newUri, depth + 1, status, body);
          assert !Settles(net, uri, depth, 0, status, body);
          forall n: nat | n > 0
            ensures Settles(net, uri, depth, n, status, body) == Settles(net, newUri, depth + 1, n - 1, status, body)
          {
          }
          var next := depth + 1;
          if n: nat :| n < REDIRECT_LIMIT - next && Settles(net, newUri, next, n, status, body) {
            assert Settles(net, uri, depth, n + 1, status, body);
          }
        } else {
          assert forall n: nat :: n > 0 ==> Hop(net, uri, depth, n) == None;
        }
      } else {
        assert forall n: nat :: n > 0 ==> Hop(net, uri, depth, n) == None;
        assert Settles(net, uri, depth, 0, status, body)
               <==> res.Response? && res.status == status && DecodedBody(net, res) == Ok(body);
      }
    }
  }

  // ---- The reported URI ------------------------------------------------------

  /** The end of the leading run of permanent redirects. */
  function EndOfPermanentRun(net: Network, uri: string, depth: nat): string
    decreases REDIRECT_LIMIT - depth
  {
    var res := net.respond(uri, depth);
    if depth < 5 && res.Response? && res.status == 308 && res.location.Some?
       && net.parseUri(res.location.value).Some?
    then EndOfPermanentRun(net, net.parseUri(res.location.value).value, depth + 1)
    else uri
  }

  /** Main result: the shipped code always reports the URI it was given, while
      the rule in its comment reports where the permanent redirects lead. */
  lemma {:induction false} ReportedUri(net: Network, uri: string, depth: nat)
    ensures var shipped := Follow(net, ShippedPermanent, uri, depth);
            var intended := Follow(net, IntendedPermanent, uri, depth);
            && (shipped.Ok? <==> intended.Ok?)
            && (shipped.Err? ==> shipped == intended)
            && (shipped.Ok? ==> !IsRedirection(shipped.value.status) && shipped.value.uri == uri)
            && (shipped.Ok? ==>
                  intended == Ok(shipped.value.(uri := EndOfPermanentRun(net, uri, depth))))
    decreases REDIRECT_LIMIT - depth
  {
    if depth < REDIRECT_LIMIT {
      var res := net.respond(uri, depth);
      if res.Response? && IsRedirection(res.status) && NewUri(net, res.location).Ok? {
        ReportedUri(net, NewUri(net, res.location).value, depth + 1);
      }
    }
  }

  /** The response depends on the URI alone. */
  ghost predicate Stationary(net: Network) {
    forall uri, m: nat, n: nat :: net.respond(uri, m) == net.respond(uri, n)
  }

  lemma {:induction false} RunEndsElsewhere(net: Network, uri: string, depth: nat)
    requires Stationary(net) && Follow(net, ShippedPermanent, uri, depth).Ok?
    ensures var end := net.respond(EndOfPermanentRun(net, uri, depth), depth);
            end.Response? && end.status != 308
    decreases REDIRECT_LIMIT - depth
  {
    var res := net.respond(uri, depth);
    if res.status == PERMANENT_REDIRECT {
      var newUri := NewUri(net, res.location).value;
      RunEndsElsewhere(net, newUri, depth + 1);
      assert net.respond(EndOfPermanentRun(net, newUri, depth + 1), depth + 1)
          == net.respond(EndOfPermanentRun(net, uri, depth), depth);
    }
  }

  /** A readable response that is no redirect is reached within the limit. */
  ghost predicate Reaches(net: Network, uri: string) {
    exists n: nat, status, body :: n < 5 && Settles(net, uri, 0, n, status, body)
  }

  lemma SucceedsWhenReached(net: Network, uri: string)
    ensures Shipped(net, uri).Ok? <==> Reaches(net, uri)
  {
    var r := Shipped(net, uri);
    if r.Ok? {
      SucceedsWithinLimit(net, ShippedPermanent, uri, 0, r.value.status, r.value.body);
    }
    if n: nat, status, body :| n < REDIRECT_LIMIT && Settles(net, uri, 0, n, status, body) {
      SucceedsWithinLimit(net, ShippedPermanent, uri, 0, status, body);
    }
  }

  /** Main result: on any network, shipped and described behaviour differ exactly when
      a response is reached and the leading permanent redirects end elsewhere than
      they began. */
  lemma ShadowedStatusExactly(net: Network, uri: string)
    ensures Shipped(net, uri) != Intended(net, uri)
            <==> Reaches(net, uri) && EndOfPermanentRun(net, uri, 0) != uri
  {
    ReportedUri(net, uri, 0);
    SucceedsWhenReached(net, uri);
  }

  /** When the answer depends on the URI alone, that is when the first is a 308. */
  lemma ShadowedStatusOnFirst(net: Network, uri: string)
    requires Stationary(net)
    ensures Shipped(net, uri) != Intended(net, uri)
            <==> Reaches(net, uri) && net.respond(uri, 0).Response? && net.respond(uri, 0).status == 308
  {
    ReportedUri(net, uri, 0);
    SucceedsWhenReached(net, uri);
    if Shipped(net, uri).Ok? {
      RunEndsElsewhere(net, uri, 0);
      assert net.respond(uri, 0).Response?;
    }
  }

  function MovedFromAToB(): Network {
    var moved, found := Response(308, Some("b"), false, None), Response(200, None, false, Some([]));
    Network((uri, n) => if uri == "a" then moved else found, l => Some(l), b => Some(b))
  }

  /** A feed that moved permanently from "a" to "b" is still reported at "a". */
  lemma ShadowedStatusExample()
    ensures var net := MovedFromAToB();
            && Stationary(net)
            && Shipped(net, "a") == Ok(Fetched(200, [], "a"))
            && Intended(net, "a") == Ok(Fetched(200, [], "b"))
  {
    var net := MovedFromAToB();
    assert "a" != "b" by { assert "a"[0] != "b"[0]; }
    assert Follow(net, ShippedPermanent, "b", 1) == Ok(Fetched(200, [], "b"));
    assert Follow(net, IntendedPermanent, "b", 1) == Ok(Fetched(200, [], "b"));
  }
}
