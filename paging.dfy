/**
 * `PullIter`: the paginated pull-request iterator. The pure functions give the
 * meaning of one `try_next` call (TryNextSpec), of one `Iterator::next` call
 * (IterItem) and of a run of calls (Drain); the class updates its buffer and
 * cursor in place and is proved to follow them.
 */
module Paging {
  import opened Wrappers
  import opened Pulls
  import opened Http

  /** The iterator's mutable part: the unconsumed rest of the page and the cursor. */
  datatype State = State(pulls: seq<Pull>, nextLink: Option<string>)

  /** The iterator's fixed part: the server behind the client and the optional token. */
  datatype Config = Config(client: Server, token: Option<string>)

  /** What one `try_next` call returns, the state it leaves and the requests it sends. */
  datatype Step = Step(result: Result<Option<Pull>, Error>, after: State, sent: seq<Request>)

  /** The state `PullIter::for_addr` builds: no pulls, the cursor at the start URL. */
  function Start(url: string): State {
    State([], Some(url))
  }

  /** An iterator that is done: nothing buffered and no cursor. */
  function Exhausted(): State {
    State([], None)
  }

  /** `PullIter::try_next`. */
  function TryNextSpec(s: State, cfg: Config): (step: Step)
    ensures |step.sent| <= 1
    ensures step.sent != [] <==> s.pulls == [] && s.nextLink.Some?
    ensures step.sent != [] ==> step.sent[0] == Request(s.nextLink.value, AuthHeader(cfg.token))
    ensures step.result.Err? ==> step.after == Exhausted()
    ensures step.result == Ok(None) ==> step.after.pulls == []
  {
    if s.pulls != [] then Step(Ok(Some(s.pulls[0])), State(s.pulls[1..], s.nextLink), [])
    else if s.nextLink.None? then Step(Ok(None), s, [])
    else
      var request := Request(s.nextLink.value, AuthHeader(cfg.token));
      match cfg.client(request)
      case Unreachable(reason) => Step(Err(Transport(reason)), Exhausted(), [request])
      case Responded(status, body, link) =>
        if !IsSuccess(status) then Step(Err(ServerError(status)), Exhausted(), [request])
        else match body
          case Malformed(reason) => Step(Err(Decode(reason)), Exhausted(), [request])
          case Decoded(page) =>
            var cursor := LinkTarget(link);
            if page == [] then Step(Ok(None), State([], cursor), [request])
            else Step(Ok(Some(page[0])), State(page[1..], cursor), [request])
  }

  /** `Iterator::next` on top of `try_next`. */
  function IterItem(r: Result<Option<Pull>, Error>): (item: Option<Result<Pull, Error>>)
    ensures item.None? <==> r == Ok(None)
    ensures r.Ok? && r.value.Some? ==> item == Some(Ok(r.value.value))
    ensures r.Err? ==> item == Some(Err(r.error))
  {
    match r
    case Ok(Some(pull)) => Some(Ok(pull))
    case Ok(None) => None
    case Err(e) => Some(Err(e))
  }

  /**
   * What `calls` successive `Iterator::next` calls produce, stopping at the
   * first None: the items before it, whether it was reached, the state left
   * and every request sent, in order.
   */
  datatype Run = Run(items: seq<Result<Pull, Error>>, ended: bool, after: State, sent: seq<Request>)

  function Drain(s: State, cfg: Config, calls: nat): (run: Run)
    decreases calls
  {
    if calls == 0 then Run([], false, s, [])
    else
      var step := TryNextSpec(s, cfg);
      match IterItem(step.result)
      case None => Run([], true, step.after, step.sent)
      case Some(item) =>
        var rest := Drain(step.after, cfg, calls - 1);
        Run([item] + rest.items, rest.ended, rest.after, step.sent + rest.sent)
  }

  /**
   * The shape of a run: at most one item and one request per call; a run
   * that did not reach the end yielded an item on every call; a run that
   * reached it left nothing buffered.
   */
  lemma {:induction false} DrainShape(s: State, cfg: Config, calls: nat)
    ensures var run := Drain(s, cfg, calls);
      && |run.items| <= calls && |run.sent| <= calls
      && (!run.ended ==> |run.items| == calls)
      && (run.ended ==> run.after.pulls == [])
    decreases calls
  {
    if calls > 0 {
      DrainShape(TryNextSpec(s, cfg).after, cfg, calls - 1);
    }
  }

  /** Every pull of a sequence, as the `Ok` items of the iterator. */
  function Oks(pulls: seq<Pull>): (items: seq<Result<Pull, Error>>)
    ensures |items| == |pulls| && forall i | 0 <= i < |pulls| :: items[i] == Ok(pulls[i])
  {
    if pulls == [] then [] else [Ok(pulls[0])] + Oks(pulls[1..])
  }

  function Flatten(pages: seq<seq<Pull>>): seq<Pull> {
    if pages == [] then [] else pages[0] + Flatten(pages[1..])
  }

  /** The requests a walk over `urls` sends. */
  function Requests(urls: seq<string>, token: Option<string>): (requests: seq<Request>)
    ensures |requests| == |urls|
    ensures forall i | 0 <= i < |urls| :: requests[i] == Request(urls[i], AuthHeader(token))
  {
    if urls == [] then [] else [Request(urls[0], AuthHeader(token))] + Requests(urls[1..], token)
  }

  function First(urls: seq<string>): Option<string> {
    if urls == [] then None else Some(urls[0])
  }

  /** The server answers `url` with a 2xx status, `page` as body and `next` as the `next` link. */
  ghost predicate Serves(cfg: Config, url: string, page: seq<Pull>, next: Option<string>) {
    match cfg.client(Request(url, AuthHeader(cfg.token)))
    case Responded(status, Decoded(p), link) => IsSuccess(status) && p == page && LinkTarget(link) == next
    case _ => false
  }

  /**
   * The server holds the pagination `urls[0] -> urls[1] -> ...`: page i is
   * non-empty, is served at urls[i] and links to urls[i + 1], the last to nothing.
   */
  ghost predicate Chain(cfg: Config, urls: seq<string>, pages: seq<seq<Pull>>) {
    |urls| == |pages| &&
    (urls != [] ==>
      pages[0] != [] && Serves(cfg, urls[0], pages[0], First(urls[1..])) && Chain(cfg, urls[1..], pages[1..]))
  }

  // ----- one call -----

  /** With pulls buffered, `try_next` yields the head, sends nothing and keeps the cursor. */
  lemma BufferedHead(s: State, cfg: Config)
    requires s.pulls != []
    ensures TryNextSpec(s, cfg) == Step(Ok(Some(s.pulls[0])), State(s.pulls[1..], s.nextLink), [])
  {
  }

  /**
   * The cursor is taken before the request: after any error nothing is
   * buffered and no cursor is left, so the next call ends the sequence.
   */
  lemma ErrorLeavesExhausted(s: State, cfg: Config)
    requires TryNextSpec(s, cfg).result.Err?
    ensures s.pulls == [] && s.nextLink.Some?
    ensures TryNextSpec(s, cfg).after == Exhausted()
    ensures TryNextSpec(Exhausted(), cfg) == Step(Ok(None), Exhausted(), [])
  {
  }

  /**
   * The three ways a fetch fails, each with its own error: the request not
   * going through, a status outside 2xx, and a 2xx body that is not a list
   * of pulls.
   */
  lemma FetchErrors(s: State, cfg: Config)
    requires s.pulls == [] && s.nextLink.Some?
    ensures var response := cfg.client(Request(s.nextLink.value, AuthHeader(cfg.token)));
      && (response.Unreachable? ==> TryNextSpec(s, cfg).result == Err(Transport(response.reason)))
      && (response.Responded? && !IsSuccess(response.status) ==>
            TryNextSpec(s, cfg).result == Err(ServerError(response.status)))
      && (response.Responded? && IsSuccess(response.status) && response.body.Malformed? ==>
            TryNextSpec(s, cfg).result == Err(Decode(response.body.reason)))
      && (response.Responded? && IsSuccess(response.status) && response.body.Decoded? ==>
            TryNextSpec(s, cfg).result.Ok?)
  {
  }

  /** A fetched page fills the buffer and the cursor becomes its `next` link, or none. */
  lemma FetchedPage(s: State, cfg: Config, status: nat, page: seq<Pull>, link: Option<seq<LinkValue>>)
    requires s.pulls == [] && s.nextLink.Some?
    requires cfg.client(Request(s.nextLink.value, AuthHeader(cfg.token))) == Responded(status, Decoded(page), link)
    requires IsSuccess(status)
    ensures TryNextSpec(s, cfg).after.nextLink == LinkTarget(link)
    ensures page != [] ==> TryNextSpec(s, cfg).result == Ok(Some(page[0])) && TryNextSpec(s, cfg).after.pulls == page[1..]
    ensures page == [] ==> TryNextSpec(s, cfg).result == Ok(None)
  {
  }

  // ----- runs of calls -----

  /** Draining a buffered page yields its pulls in order and sends no request. */
  lemma {:induction false} DrainBuffered(pulls: seq<Pull>, link: Option<string>, cfg: Config, k: nat)
    requires k <= |pulls|
    ensures Drain(State(pulls, link), cfg, k) == Run(Oks(pulls[..k]), false, State(pulls[k..], link), [])
    decreases k
  {
    if k > 0 {
      DrainBuffered(pulls[1..], link, cfg, k - 1);
      assert pulls[1..][..k - 1] == pulls[1..k];
      assert pulls[1..][k - 1..] == pulls[k..];
      assert Oks(pulls[..k]) == [Ok(pulls[0])] + Oks(pulls[1..k]);
    }
  }

  /**
   * A failed fetch is reported once and then the sequence ends: the error
   * is the only item and the one request is the last.
   */
  lemma FailedFetchEndsSequence(s: State, cfg: Config, calls: nat)
    requires calls >= 2
    requires TryNextSpec(s, cfg).result.Err?
    ensures Drain(s, cfg, calls) ==
      Run([Err(TryNextSpec(s, cfg).result.error)], true, Exhausted(), [Request(s.nextLink.value, AuthHeader(cfg.token))])
  {
    ErrorLeavesExhausted(s, cfg);
  }

  /** An empty page ends the sequence even when the page carried a `next` link. */
  lemma EmptyPageEndsSequence(s: State, cfg: Config, calls: nat, status: nat, link: Option<seq<LinkValue>>)
    requires calls >= 1
    requires s.pulls == [] && s.nextLink.Some?
    requires cfg.client(Request(s.nextLink.value, AuthHeader(cfg.token))) == Responded(status, Decoded([]), link)
    requires IsSuccess(status)
    ensures Drain(s, cfg, calls) ==
      Run([], true, State([], LinkTarget(link)), [Request(s.nextLink.value, AuthHeader(cfg.token))])
  {
  }

  /** Every request of a run carries the token's header, and no header without a token. */
  lemma {:induction false} DrainAuthorized(s: State, cfg: Config, calls: nat)
    ensures forall i | 0 <= i < |Drain(s, cfg, calls).sent| ::
      Drain(s, cfg, calls).sent[i].authorization == AuthHeader(cfg.token)
    decreases calls
  {
    if calls > 0 {
      var step := TryNextSpec(s, cfg);
      DrainAuthorized(step.after, cfg, calls - 1);
    }
  }

  /**
   * The iterator `for_addr` builds at the first URL of a served chain of
   * non-empty pages yields every pull of every page exactly once, in fetch
   * order, and then ends; it requests each URL of the chain once, in order,
   * and nothing else.
   */
  lemma ForAddrYieldsChain(cfg: Config, urls: seq<string>, pages: seq<seq<Pull>>)
    requires Chain(cfg, urls, pages) && urls != []
    ensures Drain(Start(urls[0]), cfg, |Flatten(pages)| + 1) ==
      Run(Oks(Flatten(pages)), true, Exhausted(), Requests(urls, cfg.token))
  {
    DrainChainFetch(cfg, urls, pages, Flatten(pages));
  }

  /**
   * Over a server holding the chain `urls` of non-empty pages, starting with
   * `pulls` buffered and the cursor at the chain's first URL: the run yields
   * the buffered pulls then the pages in fetch order (`later`), each pull
   * once, then ends; it fetches each URL exactly once, in order.
   */
  lemma {:induction false} DrainChain(pulls: seq<Pull>, cfg: Config, urls: seq<string>, pages: seq<seq<Pull>>,
                                      later: seq<Pull>)
    requires Chain(cfg, urls, pages) && later == Flatten(pages)
    ensures Drain(State(pulls, First(urls)), cfg, |pulls| + |later| + 1) ==
      Run(Oks(pulls + later), true, Exhausted(), Requests(urls, cfg.token))
    decreases |pulls| + |later|, 2
  {
    if pulls != [] {
      DrainChainBuffered(pulls, cfg, urls, pages, later);
    } else if urls == [] {
      assert pages == [];
      DrainExhausted(cfg, 1);
    } else {
      DrainChainFetch(cfg, urls, pages, later);
      assert [] + later == later;
    }
  }

  /** DrainChain with pulls buffered: the first call pops one without a request. */
  lemma {:induction false} DrainChainBuffered(pulls: seq<Pull>, cfg: Config, urls: seq<string>, pages: seq<seq<Pull>>,
                                              later: seq<Pull>)
    requires Chain(cfg, urls, pages) && later == Flatten(pages) && pulls != []
    ensures Drain(State(pulls, First(urls)), cfg, |pulls| + |later| + 1) ==
      Run(Oks(pulls + later), true, Exhausted(), Requests(urls, cfg.token))
    decreases |pulls| + |later|, 1
  {
    DrainChain(pulls[1..], cfg, urls, pages, later);
    DrainPop(pulls, First(urls), cfg, later, Requests(urls, cfg.token));
  }

  /** An exhausted iterator ends the sequence on the first call, sending nothing. */
  lemma DrainExhausted(cfg: Config, calls: nat)
    requires calls > 0
    ensures Drain(Exhausted(), cfg, calls) == Run([], true, Exhausted(), [])
  {
  }

  /** A buffered pull is yielded before whatever the rest of the run yields. */
  lemma DrainPop(pulls: seq<Pull>, link: Option<string>, cfg: Config, later: seq<Pull>, requests: seq<Request>)
    requires pulls != []
    requires Drain(State(pulls[1..], link), cfg, |pulls[1..]| + |later| + 1) ==
      Run(Oks(pulls[1..] + later), true, Exhausted(), requests)
    ensures Drain(State(pulls, link), cfg, |pulls| + |later| + 1) == Run(Oks(pulls + later), true, Exhausted(), requests)
  {
    var rest := Run(Oks(pulls[1..] + later), true, Exhausted(), requests);
    DrainCons(State(pulls, link), cfg, |pulls[1..]| + |later| + 1, pulls[0], State(pulls[1..], link), [], rest);
    OksCons(pulls, later);
    assert [] + requests == requests;
  }

  /**
   * DrainChain from the state `for_addr` builds at the chain's first URL:
   * the first call fetches the first page.
   */
  lemma {:induction false} DrainChainFetch(cfg: Config, urls: seq<string>, pages: seq<seq<Pull>>, later: seq<Pull>)
    requires Chain(cfg, urls, pages) && later == Flatten(pages) && urls != []
    ensures Drain(Start(urls[0]), cfg, |later| + 1) == Run(Oks(later), true, Exhausted(), Requests(urls, cfg.token))
    decreases |later|, 0
  {
    var page, rest := pages[0], Flatten(pages[1..]);
    var calls := |page[1..]| + |rest| + 1;
    assert later == page + rest;
    DrainChain(page[1..], cfg, urls[1..], pages[1..], rest);
    DrainFetch(cfg, urls[0], page, First(urls[1..]), calls, |later| + 1, rest, Requests(urls[1..], cfg.token));
    assert Requests(urls, cfg.token) == [Request(urls[0], AuthHeader(cfg.token))] + Requests(urls[1..], cfg.token);
  }

  /** A fetched page is yielded before whatever the rest of the run yields. */
  lemma DrainFetch(cfg: Config, url: string, page: seq<Pull>, next: Option<string>, calls: nat, total: nat,
                   later: seq<Pull>, requests: seq<Request>)
    requires page != [] && Serves(cfg, url, page, next) && total == calls + 1
    requires Drain(State(page[1..], next), cfg, calls) == Run(Oks(page[1..] + later), true, Exhausted(), requests)
    ensures Drain(Start(url), cfg, total) ==
      Run(Oks(page + later), true, Exhausted(), [Request(url, AuthHeader(cfg.token))] + requests)
  {
    var request := Request(url, AuthHeader(cfg.token));
    var after := State(page[1..], next);
    assert TryNextSpec(Start(url), cfg) == Step(Ok(Some(page[0])), after, [request]);
    DrainCons(Start(url), cfg, calls, page[0], after, [request], Run(Oks(page[1..] + later), true, Exhausted(), requests));
    OksCons(page, later);
  }

  /** One `next` call that yields a pull, followed by the rest of the run. */
  lemma DrainCons(s: State, cfg: Config, calls: nat, pull: Pull, after: State, sent: seq<Request>, rest: Run)
    requires TryNextSpec(s, cfg) == Step(Ok(Some(pull)), after, sent)
    requires Drain(after, cfg, calls) == rest
    ensures Drain(s, cfg, calls + 1) == Run([Ok(pull)] + rest.items, rest.ended, rest.after, sent + rest.sent)
  {
  }

  /**
   * Consuming a run one `next` call at a time: if `items` were consumed and
   * the run from `s` is still to come, the next call either ends it or moves
   * one item over.
   */
  lemma DrainAdvance(all: seq<Result<Pull, Error>>, items: seq<Result<Pull, Error>>, s: State, cfg: Config, calls: nat,
                      item: Option<Result<Pull, Error>>, after: State)
    requires calls > 0 && all == items + Drain(s, cfg, calls).items
    requires item == IterItem(TryNextSpec(s, cfg).result) && after == TryNextSpec(s, cfg).after
    ensures item.None? ==> all == items
    ensures item.Some? ==> all == (items + [item.value]) + Drain(after, cfg, calls - 1).items
  {
    if item.Some? {
      var rest := Drain(after, cfg, calls - 1).items;
      assert all == items + ([item.value] + rest);
    } else {
      assert all == items + [];
    }
  }

  lemma OksCons(a: seq<Pull>, b: seq<Pull>)
    requires a != []
    ensures Oks(a + b) == [Ok(a[0])] + Oks(a[1..] + b)
  {
    assert (a + b)[1..] == a[1..] + b;
  }

  // ----- the iterator object -----

  class PullIter {
    var pulls: seq<Pull>
    var nextLink: Option<string>
    const client: Server
    const githubToken: Option<string>
    /** Every request sent so far, in order. */
    ghost var log: seq<Request>

    /** Every request sent so far carried the header of the iterator's token. */
    ghost predicate Valid()
      reads this
    {
      forall i | 0 <= i < |log| :: log[i].authorization == AuthHeader(githubToken)
    }

    function Snapshot(): State
      reads this
    {
      State(pulls, nextLink)
    }

    function Cfg(): Config {
      Config(client, githubToken)
    }

    /** `PullIter::for_addr`, with the token and the network passed in. */
    constructor ForAddr(url: string, token: Option<string>, server: Server)
      ensures Valid()
      ensures Snapshot() == Start(url) && Cfg() == Config(server, token)
      ensures log == []
    {
      pulls := [];
      nextLink := Some(url);
      client := server;
      githubToken := token;
      log := [];
    }

    method TryNext() returns (r: Result<Option<Pull>, Error>)
      requires Valid()
      modifies this
      ensures Valid()
      ensures var step := TryNextSpec(old(Snapshot()), Cfg());
        r == step.result && Snapshot() == step.after && log == old(log) + step.sent
    {
      if pulls != [] {
        r := Ok(Some(pulls[0]));
        pulls := pulls[1..];
        return;
      }
      if nextLink.None? {
        return Ok(None);
      }
      var url := nextLink.value;
      nextLink := None;
      var authorization := None;
      if githubToken.Some? {
        authorization := Some("token " + githubToken.value);
      }
      var request := Request(url, authorization);
      var response := client(request);
      log := log + [request];
      match response {
        case Unreachable(reason) =>
          return Err(Transport(reason));
        case Responded(status, body, link) =>
          if !IsSuccess(status) {
            return Err(ServerError(status));
          }
          match body {
            case Malformed(reason) =>
              return Err(Decode(reason));
            case Decoded(page) =>
              pulls := page;
          }
          if link.Some? {
            nextLink := FindNextLink(link.value);
          }
          if pulls != [] {
            r := Ok(Some(pulls[0]));
            pulls := pulls[1..];
          } else {
            r := Ok(None);
          }
      }
    }

    /** `Iterator::next`: Ok(Some) as Some(Ok), Ok(None) as None, an error as Some(Err). */
    method Next() returns (item: Option<Result<Pull, Error>>)
      requires Valid()
      modifies this
      ensures Valid()
      ensures var step := TryNextSpec(old(Snapshot()), Cfg());
        item == IterItem(step.result) && Snapshot() == step.after && log == old(log) + step.sent
    {
      var r := TryNext();
      match r {
        case Ok(Some(pull)) => item := Some(Ok(pull));
        case Ok(None) => item := None;
        case Err(e) => item := Some(Err(e));
      }
    }
  }
}
