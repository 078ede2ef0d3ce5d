# pulls_since in Dafny

`pulls_since` prints a Markdown list of the pull requests of GitHub
repositories that were closed between two dates. It walks the paginated
GitHub API with `PullIter`, drops failed items and filters the pulls with
`Predicate::test`. For each repository it prints a heading and then one
`- @login [title](url)` line per pull that passes the filter.

This project models that core (`src/main.rs`) in six modules:

- `Wrappers`: `Option` and `Result`.
- `Pulls`: the `User` and `Pull` records and `Display for Pull`. `ParseLine` reads a rendered line back; it finds the URL after the title's last `]`, so titles such as `[WIP] …` read back too.
- `Filter`: `Predicate` and `Predicate::test` over calendar dates. Also the fallback order of `parse_date`, over an abstract date parser.
- `Http`: what the iterator sees of HTTP.
  - A `Request` is a URL plus an optional `Authorization` value.
  - A `Response` is either a transport failure or a status, a decoded or malformed body and an optional `Link` header.
  - `Server` is a total function from requests to responses. It stands for the network, so the answer may depend on the token.
  - Also: `token <t>` headers, and the first `next` link of a `Link` header (the loop with its `break` is `FindNextLink`).
- `Paging`: `PullIter`.
  - Pure functions state its meaning: `TryNextSpec` for one `try_next`, `IterItem` for one `Iterator::next`, and `Drain` for a run of `next` calls up to the first `None`.
  - The class `PullIter` keeps the page buffer and the cursor as fields and updates them in place. Its methods are proved to follow those functions. A ghost log records every request sent.
  - Lemmas prove the iterator's promises. A buffered pull is returned without a request. Every request carries the token's header. An error or an empty page ends the sequence. Over a server holding a chain of non-empty pages, the iterator yields every pull exactly once, in order, and fetches each URL once.
- `Report`: `print_pulls_for_repo`. This covers the request URL, the `filter_map(Result::ok)`/`filter`/`peekable` pipeline and the printed lines. The method consumes a `PullIter` in a loop and is proved to print `Render` of the run.

The model follows what the code does in three places where a looser reading
of the program's behaviour might differ:

- `try_next` takes the cursor before it sends the request. So a transport error, a non-2xx status or a malformed body leaves no cursor and an empty buffer, and the next call ends the sequence.
- A successful but empty page ends the iteration at once, even if its `Link` header names a next page.
- Failed items are silently dropped by the report, and iteration goes on to the (immediate) end.

## Model

| member | source | states |
|---|---|---|
| Pulls.Display | src/main.rs:39-48 | the line starts with `- @`, ends with `)` and is 8 delimiter characters longer than login, title and URL together |
| Pulls.DisplayRoundTrip | src/main.rs:39-48 | for a login without a space and a URL without `]` (any title, brackets included), parsing the rendered line gives back exactly the login, title and URL |
| Filter.Precedes | src/main.rs:145-146 | the `>`/`<` on `NaiveDate`: year first, then month, then day; its order properties are in PrecedesIsStrictTotalOrder |
| Filter.ClosedDate | src/main.rs:144 | `closed_at.date().naive_utc()`: the UTC date of the closing instant; TestIgnoresTimeOfDay states what this drops |
| Filter.Test | src/main.rs:143-151 | a pull is accepted iff its closing date is strictly after `since` (when given), strictly before `until` (when given), and its login differs from the excluded one (when given) |
| Filter.PrecedesIsStrictTotalOrder | src/main.rs:144-146 | the date comparison the filter uses is irreflexive, transitive and total |
| Filter.TestBoundaries | src/main.rs:145-146 | both date bounds are exclusive; strictly between them only the login clause decides |
| Filter.TestIsConjunction | src/main.rs:145-150 | the filter is the conjunction of its three clauses, each tested alone; with no clause every pull is accepted |
| Filter.TestIgnoresTimeOfDay | src/main.rs:144 | only the UTC date of the closing instant matters, not its time of day |
| Filter.Attempts | src/main.rs:189-192 | `parse_date` makes exactly three attempts, in this order: the input as `%Y/%m/%d`, the input as `%d.%m.%Y`, and the input plus `.` plus the current year as `%d.%m.%Y` |
| Filter.ParseDate | src/main.rs:188-194 | parsing succeeds iff one of the three attempts (`%Y/%m/%d`, `%d.%m.%Y`, input plus `.` plus current year) succeeds; the result is that of the first attempt that succeeds; on failure the error is the third attempt's |
| Filter.NatToString | src/main.rs:192 | the year is written as a non-empty string of decimal digits without a leading zero |
| Filter.NatToStringRoundTrip | src/main.rs:192 | reading the written digits back gives the year |
| Filter.IntToString | src/main.rs:192 | `format!` of the year is non-empty and starts with `-` exactly when the year is negative |
| Filter.IntToStringRoundTrip | src/main.rs:192 | reading the sign and digits back gives the year, for every integer |
| Http.IsSuccess | src/main.rs:92 | `is_success` holds exactly for the statuses of the 2xx class (status divided by 100 is 2) |
| Http.AuthHeader | src/main.rs:87-89 | a header exists iff a token exists, and it is `token ` followed by the token |
| Http.HasNextRel | src/main.rs:100-102 | a value counts iff it has a `rel` parameter and some relation in it is `next`; a value without `rel` never counts |
| Http.LinkTarget | src/main.rs:98-108 | no `Link` header leaves no cursor; otherwise a cursor exists iff some value has a `next` relation, and it is the target of such a value |
| Http.NextLink | src/main.rs:98-108 | no cursor iff no `Link` value has a `rel` containing `next`; otherwise the cursor is the target of the first such value |
| Http.FindNextLink | src/main.rs:98-107 | the loop with its early `break` finds that first `next` target |
| Paging.TryNextSpec | src/main.rs:75-111 | at most one request; a request is sent iff the buffer is empty and a cursor is present, and it goes to the cursor with the token's header; an error leaves no buffer and no cursor; `Ok(None)` leaves an empty buffer |
| Paging.IterItem | src/main.rs:117-123 | `next` is `None` exactly when `try_next` returned `Ok(None)`; `Ok(Some(p))` becomes `Some(Ok(p))` with the same pull; an error is passed on as `Some(Err)` |
| Paging.Drain | src/main.rs:207-220 | the items of successive `next` calls up to the first `None` (at most `calls` of them), whether that `None` was reached, the state left and the requests sent; its properties are stated by the lemmas below |
| Paging.DrainShape | src/main.rs:207-220 | a run yields at most one item and sends at most one request per call; a run that did not end yielded an item on every call; a run that ended left nothing buffered |
| Paging.BufferedHead | src/main.rs:76-78 | with pulls buffered, the head is returned, nothing is sent and the cursor is kept |
| Paging.ErrorLeavesExhausted | src/main.rs:84-96 | an error happens only on a fetch and leaves no buffer and no cursor; the following call returns `Ok(None)` and sends nothing |
| Paging.FetchErrors | src/main.rs:91-96 | on a fetch, an unreachable server gives `Err(Transport)`, a status outside 2xx gives `Err(ServerError(status))`, a 2xx body that does not decode gives `Err(Decode)`, and a 2xx decoded body gives `Ok` |
| Paging.FetchedPage | src/main.rs:96-110 | after a 2xx response with a decoded page, the cursor is that page's `next` link (or none); the head of the page is returned and the rest buffered, or `Ok(None)` for an empty page |
| Paging.DrainBuffered | src/main.rs:76-78 | k calls on k buffered pulls yield exactly those pulls in order and send no request |
| Paging.FailedFetchEndsSequence | src/main.rs:84-96 | a failed fetch yields its error once, then the sequence ends; the single request is the only one sent |
| Paging.EmptyPageEndsSequence | src/main.rs:96-110 | an empty page ends the sequence after its one request, even when it carried a `next` link |
| Paging.DrainAuthorized | src/main.rs:84-89 | every request of any run carries the token's header, and none carries a header without a token |
| Paging.ForAddrYieldsChain | src/main.rs:66-111 | from `for_addr` over a served chain of non-empty pages, the iterator yields the concatenated pages, each pull once, then ends, having requested each URL of the chain once, in order |
| Paging.DrainChain | src/main.rs:75-111 | the same from any buffered prefix: the buffered pulls come first, then the chain's pages |
| Paging.DrainChainBuffered | src/main.rs:76-78 | the buffered case of DrainChain: a buffered pull is yielded before the chain, with no request |
| Paging.DrainChainFetch | src/main.rs:84-110 | the fetch case of DrainChain: the first URL is requested and its page starts the run |
| Paging.PullIter.ForAddr | src/main.rs:66-73 | the iterator starts with an empty buffer, the cursor at the URL, the given token and server, and no request sent |
| Paging.PullIter.TryNext | src/main.rs:75-111 | the in-place update returns TryNextSpec's result, leaves its state, and logs exactly its requests; every logged request carries the token's header |
| Paging.PullIter.Next | src/main.rs:117-123 | the item is IterItem of the `try_next` result, with the same state and log update |
| Report.RepoPullsUrl | src/main.rs:205 | the URL is the API prefix, then the repository, then `/pulls?state=closed`; the repository can be read back from it |
| Report.RepoPullsUrlInjective | src/main.rs:205 | different repositories give different URLs |
| Report.Accepted | src/main.rs:207-209 | the printed pulls are no more than the items, and each passes the filter |
| Report.AcceptedMembers | src/main.rs:207-209 | a pull is printed iff the iterator yielded it as `Ok` and it passes the filter |
| Report.AcceptedAppend | src/main.rs:207-209 | the pipeline keeps order: the pulls kept from two consecutive stretches of items are those of the first, then those of the second |
| Report.Heading | src/main.rs:216 | the heading line is `\n#### `, then the repository, then a newline |
| Report.Lines | src/main.rs:218-220 | one line per pull, each its Display |
| Report.Render | src/main.rs:212-220 | nothing is printed iff no pull is accepted; otherwise the heading `\n#### <repo>\n` comes first, then one Display line per accepted pull in iteration order |
| Report.RenderSkipsErrors | src/main.rs:208 | an error item anywhere changes nothing that is printed |
| Report.RenderAppendAccepted | src/main.rs:212-220 | one more accepted pull adds its line, after the heading if it is the first |
| Report.RenderAppendRejected | src/main.rs:208-209 | one more error or rejected pull adds nothing |
| Report.PrintItem | src/main.rs:218-220 | handling one item moves the printed lines from the rendering of the items so far to that of the items including it |
| Report.PrintPullsForRepo | src/main.rs:204-221 | the printed lines are Render of the items the iterator built at the repository's URL yields up to its first `None` |
| Report.ReportOfChain | src/main.rs:204-221 | over a served chain of non-empty pages, the report is the rendering of every pull of every page in fetch order |

## Left out

- The HTTP client (reqwest, hyper) and JSON decoding (serde) are not modelled. They are replaced by the `Server` function and the `Body` datatype, which says whether the body decoded to a list of pulls. The error kinds keep only what `try_next` distinguishes.
- Reading `GITHUB_TOKEN` from the environment (and `dotenv`): the token is a parameter of `PullIter.ForAddr` and `PrintPullsForRepo`.
- Command-line handling is not modelled: `app`, `Predicate::from_args`, `date_arg`, `run` and `quick_main`. Neither are `error_chain` error wrapping and error messages. `println!` becomes the returned sequence of lines.
- chrono's `NaiveDate::parse_from_str` and `Local::now` are not reimplemented. `ParseDate` takes the parser and the current year as parameters, and only their fallback order is modelled.
- Times of day, nanoseconds and time zones are not modelled: a closing instant is a calendar date plus a second of the day, in UTC.
- `User.id` is an unbounded `nat`; its 32-bit width is not modelled, because nothing reads it.
- Report.PrintPullsForRepo: does not loop until the iterator ends. It makes at most `calls` calls of `next`, because termination over an arbitrary server cannot be proved. `Report.ReportOfChain` gives a bound that reaches the end for a chain of pages.
- Pulls.DisplayRoundTrip: excludes logins with a space and URLs with `]`, because `Display` is not injective without such a restriction; a GitHub login has no space and an `html_url` has no `]`.
- Paging.Drain: the same bound, `calls`, on a run of `next` calls.
- Loops over several repositories (`run`) are not modelled; each repository is handled on its own by `PrintPullsForRepo`.
