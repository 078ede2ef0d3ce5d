/**
 * What the iterator sees of HTTP: the request it sends, the response the
 * server gives (transport failure, or a status, a decoded body and the
 * `Link` header), the `next` relation of RFC 8288 and the three error kinds.
 */
module Http {
  import opened Wrappers
  import opened Pulls

  /** One GET: its URL and the value of its `Authorization` header, if any. */
  datatype Request = Request(url: string, authorization: Option<string>)

  /** The relation types of a `Link` value (section 3.3 of RFC 8288); `Ext` is any other. */
  datatype RelationType = Next | Prev | First | Last | Ext(name: string)

  /** One value of the `Link` header: its target and its optional `rel` parameter. */
  datatype LinkValue = LinkValue(link: string, rel: Option<seq<RelationType>>)

  /** The body as `response.json::<Vec<Pull>>()` sees it. */
  datatype Body = Decoded(pulls: seq<Pull>) | Malformed(reason: string)

  datatype Response =
    | Unreachable(reason: string)
    | Responded(status: nat, body: Body, link: Option<seq<LinkValue>>)

  /**
   * The network as seen through the HTTP client: what the server answers to
   * each request. The answer may depend on the authorization header.
   */
  type Server = Request -> Response

  /** The errors `try_next` returns: transport, non-success status, malformed body. */
  datatype Error = Transport(reason: string) | ServerError(status: nat) | Decode(reason: string)

  /** `StatusCode::is_success`: the 2xx range. */
  predicate IsSuccess(status: nat): (ok: bool)
    ensures ok <==> status / 100 == 2
  {
    200 <= status < 300
  }

  /** The header a request carries for the optional token: `token <t>`. */
  function AuthHeader(token: Option<string>): (header: Option<string>)
    ensures header.Some? <==> token.Some?
    ensures header.Some? ==> |header.value| >= 6 && header.value[..6] == "token " && header.value[6..] == token.value
  {
    match token
    case None => None
    case Some(t) => Some("token " + t)
  }

  /** `val.rel().map(|rel| rel.contains(&RelationType::Next)).unwrap_or(false)`. */
  predicate HasNextRel(v: LinkValue): (has: bool)
    ensures has <==> v.rel.Some? && exists i | 0 <= i < |v.rel.value| :: v.rel.value[i] == Next
  {
    v.rel.Some? && Next in v.rel.value
  }

  /** The target of the first value whose relations contain `next`. */
  function NextLink(values: seq<LinkValue>): (r: Option<string>)
    ensures r.None? <==> forall i | 0 <= i < |values| :: !HasNextRel(values[i])
    ensures r.Some? ==> exists i | 0 <= i < |values| ::
      (HasNextRel(values[i]) && values[i].link == r.value && forall j | 0 <= j < i :: !HasNextRel(values[j]))
  {
    if values == [] then None
    else if HasNextRel(values[0]) then Some(values[0].link)
    else
      var r := NextLink(values[1..]);
      assert forall j | 1 <= j < |values| :: values[j] == values[1..][j - 1];
      r
  }

  /** The cursor a successful response leaves: none without a `Link` header. */
  function LinkTarget(header: Option<seq<LinkValue>>): (r: Option<string>)
    ensures r.Some? <==> header.Some? && exists i | 0 <= i < |header.value| :: HasNextRel(header.value[i])
    ensures r.Some? ==> exists i | 0 <= i < |header.value| ::
      (HasNextRel(header.value[i]) && header.value[i].link == r.value)
  {
    match header
    case None => None
    case Some(values) => NextLink(values)
  }

  /** The loop of `try_next` over the `Link` values, with its early `break`. */
  method FindNextLink(values: seq<LinkValue>) returns (link: Option<string>)
    ensures link == NextLink(values)
  {
    link := None;
    var i := 0;
    while i < |values|
      invariant 0 <= i <= |values|
      invariant NextLink(values) == NextLink(values[i..])
    {
      if HasNextRel(values[i]) {
        link := Some(values[i].link);
        break;
      }
      assert values[i..][1..] == values[i + 1..];
      i := i + 1;
    }
  }
}
