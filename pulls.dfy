/**
 * The pull-request record as the program decodes it from the API, and its
 * one-line Markdown rendering (`impl fmt::Display for Pull`).
 */
module Pulls {
  import opened Wrappers

  /** A calendar date (chrono's NaiveDate): compared year first, then month, then day. */
  datatype Date = Date(year: int, month: nat, day: nat)

  /** A UTC instant (`DateTime<Utc>`): its date and the second within that day. */
  datatype Timestamp = Timestamp(date: Date, secondOfDay: nat)

  datatype User = User(login: string, id: nat)

  datatype Pull = Pull(htmlUrl: string, title: string, user: User, closedAt: Timestamp)

  /** The report line of one pull: `- @<login> [<title>](<url>)`. */
  function Display(p: Pull): (line: string)
    ensures |line| == |p.user.login| + |p.title| + |p.htmlUrl| + 8
    ensures line[..3] == "- @" && line[|line| - 1] == ')'
  {
    "- @" + p.user.login + " [" + p.title + "](" + p.htmlUrl + ")"
  }

  /** The three fields a report line shows. */
  datatype Shown = Shown(login: string, title: string, url: string)

  /**
   * Splits `s` at the first occurrence of `c`: the part before it and the
   * part after it, or None when `c` does not occur.
   */
  function SplitAtFirst(s: string, c: char): (r: Option<(string, string)>)
    ensures r.None? <==> c !in s
    ensures r.Some? ==> s == r.value.0 + [c] + r.value.1 && c !in r.value.0
  {
    if s == [] then None
    else if s[0] == c then Some(([], s[1..]))
    else match SplitAtFirst(s[1..], c)
      case None => None
      case Some(parts) =>
        assert s == [s[0]] + s[1..];
        Some(([s[0]] + parts.0, parts.1))
  }

  /**
   * Splits `s` at the last occurrence of `c`: the part before it and the
   * part after it, or None when `c` does not occur.
   */
  function SplitAtLast(s: string, c: char): (r: Option<(string, string)>)
    ensures r.None? <==> c !in s
    ensures r.Some? ==> s == r.value.0 + [c] + r.value.1 && c !in r.value.1
    decreases |s|
  {
    if s == [] then None
    else if s[|s| - 1] == c then Some((s[..|s| - 1], []))
    else match SplitAtLast(s[..|s| - 1], c)
      case None => None
      case Some(parts) =>
        assert s == s[..|s| - 1] + [s[|s| - 1]];
        Some((parts.0, parts.1 + [s[|s| - 1]]))
  }

  /**
   * Reads the login, title and URL back out of a report line; the inverse of
   * Display for every pull whose login has no space and whose URL has no ']'.
   * The title may hold anything: the URL is found after the title's last ']'.
   */
  function ParseLine(line: string): Option<Shown> {
    if |line| < 3 || line[..3] != "- @" then None
    else match SplitAtFirst(line[3..], ' ')
      case None => None
      case Some(parts) => ParseTitleAndUrl(parts.0, parts.1)
  }

  /** The part of a report line after `- @<login> `: `[<title>](<url>)`. */
  function ParseTitleAndUrl(login: string, rest: string): Option<Shown> {
    if |rest| < 2 || rest[0] != '[' || rest[|rest| - 1] != ')' then None
    else match SplitAtLast(rest[1..|rest| - 1], ']')
      case None => None
      case Some(parts) => ParseUrl(login, parts.0, parts.1)
  }

  /** The part of a report line between the last `]` and the final `)`: `(<url>`. */
  function ParseUrl(login: string, title: string, tail: string): Option<Shown> {
    if tail == [] || tail[0] != '(' then None
    else Some(Shown(login, title, tail[1..]))
  }

  lemma {:induction false} SplitAtFirstOf(a: string, c: char, b: string)
    requires c !in a
    ensures SplitAtFirst(a + [c] + b, c) == Some((a, b))
  {
    if a != [] {
      assert (a + [c] + b)[1..] == a[1..] + [c] + b;
      SplitAtFirstOf(a[1..], c, b);
      assert [a[0]] + a[1..] == a;
    }
  }

  lemma {:induction false} SplitAtLastOf(a: string, c: char, b: string)
    requires c !in b
    ensures SplitAtLast(a + [c] + b, c) == Some((a, b))
    decreases |b|
  {
    var s := a + [c] + b;
    if b != [] {
      var init := b[..|b| - 1];
      assert s[..|s| - 1] == a + [c] + init;
      SplitAtLastOf(a, c, init);
      assert init + [b[|b| - 1]] == b;
    } else {
      assert s[..|s| - 1] == a;
    }
  }

  /** A rendered line determines the pull's login, title and URL. */
  lemma DisplayRoundTrip(p: Pull)
    requires ' ' !in p.user.login && ']' !in p.htmlUrl
    ensures ParseLine(Display(p)) == Some(Shown(p.user.login, p.title, p.htmlUrl))
  {
    var login, afterLogin := p.user.login, "[" + p.title + "](" + p.htmlUrl + ")";
    assert Display(p) == "- @" + (login + [' '] + afterLogin);
    assert Display(p)[3..] == login + [' '] + afterLogin;
    SplitAtFirstOf(login, ' ', afterLogin);
    ParseTitleAndUrlOf(login, p.title, p.htmlUrl);
  }

  lemma ParseTitleAndUrlOf(login: string, title: string, url: string)
    requires ']' !in url
    ensures ParseTitleAndUrl(login, "[" + title + "](" + url + ")") == Some(Shown(login, title, url))
  {
    var rest := "[" + title + "](" + url + ")";
    var afterTitle := "(" + url;
    assert rest[1..|rest| - 1] == title + [']'] + afterTitle;
    SplitAtLastOf(title, ']', afterTitle);
    assert afterTitle[1..] == url;
  }
}
