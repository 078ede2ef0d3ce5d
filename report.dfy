/**
 * `print_pulls_for_repo`: the URL of a repository's closed pulls, the
 * `filter_map(Result::ok)`/`filter(test)`/`peekable` pipeline over the
 * iterator, and the lines it prints.
 */
module Report {
  import opened Wrappers
  import opened Pulls
  import opened Filter
  import opened Http
  import opened Paging

  const ApiRepos: string := "https://api.github.com/repos/"
  const ClosedPulls: string := "/pulls?state=closed"

  /** The first page of a repository's closed pulls; the repository can be read back from it. */
  function RepoPullsUrl(repo: string): (url: string)
    ensures |url| == |ApiRepos| + |repo| + |ClosedPulls|
    ensures url[..|ApiRepos|] == ApiRepos && url[|url| - |ClosedPulls|..] == ClosedPulls
    ensures url[|ApiRepos|..|url| - |ClosedPulls|] == repo
  {
    ApiRepos + repo + ClosedPulls
  }

  /** Different repositories are fetched from different URLs. */
  lemma RepoPullsUrlInjective(a: string, b: string)
    requires RepoPullsUrl(a) == RepoPullsUrl(b)
    ensures a == b
  {
  }

  /** The pulls that reach the printing loop: the Ok items that pass the filter, in order. */
  function Accepted(pred: Predicate, items: seq<Result<Pull, Error>>): (pulls: seq<Pull>)
    ensures |pulls| <= |items|
    ensures forall i | 0 <= i < |pulls| :: Test(pred, pulls[i])
  {
    if items == [] then []
    else
      var head := match items[0]
        case Ok(pull) => if Test(pred, pull) then [pull] else []
        case Err(_) => [];
      head + Accepted(pred, items[1..])
  }

  /** The heading printed before the first line of a repository: `\n#### <repo>\n`. */
  function Heading(repo: string): (heading: string)
    ensures |heading| == |repo| + 7 && heading[..6] == "\n#### " && heading[6..|heading| - 1] == repo
    ensures heading[|heading| - 1] == '\n'
  {
    "\n#### " + repo + "\n"
  }

  function Lines(pulls: seq<Pull>): (lines: seq<string>)
    ensures |lines| == |pulls| && forall i | 0 <= i < |pulls| :: lines[i] == Display(pulls[i])
  {
    if pulls == [] then [] else [Display(pulls[0])] + Lines(pulls[1..])
  }

  /**
   * What `print_pulls_for_repo` prints for a run of the iterator, one
   * `println!` per element: nothing when no pull is accepted, otherwise the
   * heading followed by one line per accepted pull in iteration order.
   */
  function Render(repo: string, pred: Predicate, items: seq<Result<Pull, Error>>): (lines: seq<string>)
    ensures lines == [] <==> Accepted(pred, items) == []
    ensures lines != [] ==>
      var accepted := Accepted(pred, items);
      |lines| == |accepted| + 1 && lines[0] == Heading(repo) &&
      forall i | 0 <= i < |accepted| :: lines[i + 1] == Display(accepted[i])
  {
    var accepted := Accepted(pred, items);
    if accepted == [] then [] else [Heading(repo)] + Lines(accepted)
  }

  /** The pipeline keeps order across any split of the iterator's output. */
  lemma {:induction false} AcceptedAppend(pred: Predicate, a: seq<Result<Pull, Error>>, b: seq<Result<Pull, Error>>)
    ensures Accepted(pred, a + b) == Accepted(pred, a) + Accepted(pred, b)
    decreases |a|
  {
    if a != [] {
      assert (a + b)[1..] == a[1..] + b;
      AcceptedAppend(pred, a[1..], b);
    } else {
      assert a + b == b;
    }
  }

  /** A pull is printed exactly when the iterator yielded it as Ok and it passes the filter. */
  lemma {:induction false} AcceptedMembers(pred: Predicate, items: seq<Result<Pull, Error>>, pull: Pull)
    ensures pull in Accepted(pred, items) <==> Ok(pull) in items && Test(pred, pull)
    decreases |items|
  {
    if items != [] {
      AcceptedMembers(pred, items[1..], pull);
      assert items == [items[0]] + items[1..];
    }
  }

  /** An error item is skipped without stopping the report. */
  lemma RenderSkipsErrors(repo: string, pred: Predicate, a: seq<Result<Pull, Error>>, e: Error, b: seq<Result<Pull, Error>>)
    ensures Render(repo, pred, a + [Err(e)] + b) == Render(repo, pred, a + b)
  {
    AcceptedAppend(pred, a + [Err(e)], b);
    AcceptedAppend(pred, a, [Err(e)]);
    AcceptedAppend(pred, a, b);
    assert Accepted(pred, [Err(e)]) == [];
    assert Accepted(pred, a + [Err(e)]) == Accepted(pred, a) + [] == Accepted(pred, a);
    assert Accepted(pred, a + [Err(e)] + b) == Accepted(pred, a + b);
  }

  lemma LinesSnoc(pulls: seq<Pull>, pull: Pull)
    ensures Lines(pulls + [pull]) == Lines(pulls) + [Display(pull)]
  {
  }

  /** One more item that passes: its line is added, after the heading if it is the first. */
  lemma RenderAppendAccepted(repo: string, pred: Predicate, items: seq<Result<Pull, Error>>, pull: Pull)
    requires Test(pred, pull)
    ensures Render(repo, pred, items + [Ok(pull)]) ==
      (if Render(repo, pred, items) == [] then [Heading(repo)] else Render(repo, pred, items)) + [Display(pull)]
  {
    AcceptedAppend(pred, items, [Ok(pull)]);
    var accepted := Accepted(pred, items);
    assert Accepted(pred, [Ok(pull)]) == [pull];
    LinesSnoc(accepted, pull);
    if accepted == [] {
      assert Lines([] + [pull]) == [Display(pull)];
    }
  }

  /** One more item that is an error or fails the filter changes nothing. */
  lemma RenderAppendRejected(repo: string, pred: Predicate, items: seq<Result<Pull, Error>>, item: Result<Pull, Error>)
    requires item.Ok? ==> !Test(pred, item.value)
    ensures Render(repo, pred, items + [item]) == Render(repo, pred, items)
  {
    AcceptedAppend(pred, items, [item]);
    assert Accepted(pred, [item]) == [];
    assert Accepted(pred, items) + [] == Accepted(pred, items);
  }

  /**
   * The loop body of `print_pulls_for_repo` for one item: an accepted pull
   * prints the heading first if nothing was printed yet, then its line; an
   * error or a rejected pull prints nothing.
   */
  method PrintItem(repo: string, pred: Predicate, ghost items: seq<Result<Pull, Error>>, lines: seq<string>,
                   item: Result<Pull, Error>) returns (printed: seq<string>)
    requires lines == Render(repo, pred, items)
    ensures printed == Render(repo, pred, items + [item])
  {
    printed := lines;
    if item.Ok? && Test(pred, item.value) {
      RenderAppendAccepted(repo, pred, items, item.value);
      if printed == [] {
        printed := [Heading(repo)];
      }
      printed := printed + [Display(item.value)];
    } else {
      RenderAppendRejected(repo, pred, items, item);
    }
  }

  /**
   * `print_pulls_for_repo` over at most `calls` calls of `Iterator::next`:
   * it builds the iterator at the repository's URL, consumes it until the
   * first None and returns the lines it would print.
   */
  method PrintPullsForRepo(repo: string, pred: Predicate, token: Option<string>, server: Server, calls: nat)
    returns (lines: seq<string>)
    ensures lines == Render(repo, pred, Drain(Start(RepoPullsUrl(repo)), Config(server, token), calls).items)
  {
    var cfg := Config(server, token);
    var pulls := new PullIter.ForAddr(RepoPullsUrl(repo), token, server);
    ghost var all := Drain(Start(RepoPullsUrl(repo)), cfg, calls).items;
    ghost var items: seq<Result<Pull, Error>> := [];
    lines := [];
    var left := calls;
    var done := false;
    while left > 0 && !done
      invariant pulls.Valid() && pulls.Cfg() == cfg
      invariant done ==> all == items
      invariant !done ==> all == items + Drain(pulls.Snapshot(), cfg, left).items
      invariant lines == Render(repo, pred, items)
    {
      ghost var before := pulls.Snapshot();
      var item := pulls.Next();
      DrainAdvance(all, items, before, cfg, left, item, pulls.Snapshot());
      match item {
        case None =>
          done := true;
        case Some(x) =>
          lines := PrintItem(repo, pred, items, lines, x);
          items := items + [x];
      }
      left := left - 1;
    }
    if !done {
      assert all == items + [] == items;
    }
  }

  /**
   * For a repository whose closed pulls the server holds as a chain of
   * non-empty pages, the report is the rendering of every pull of every
   * page, in fetch order.
   */
  lemma ReportOfChain(repo: string, pred: Predicate, cfg: Config, urls: seq<string>, pages: seq<seq<Pull>>)
    requires Chain(cfg, urls, pages) && urls != [] && urls[0] == RepoPullsUrl(repo)
    ensures Render(repo, pred, Drain(Start(RepoPullsUrl(repo)), cfg, |Flatten(pages)| + 1).items) ==
      Render(repo, pred, Oks(Flatten(pages)))
  {
    ForAddrYieldsChain(cfg, urls, pages);
  }
}
