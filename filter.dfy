/**
 * The report's filter (`struct Predicate` and `Predicate::test`) and the
 * fallback order in which a date argument is parsed (`parse_date`).
 */
module Filter {
  import opened Wrappers
  import opened Pulls

  /** `a` is a strictly earlier calendar date than `b`. */
  predicate Precedes(a: Date, b: Date) {
    a.year < b.year || (a.year == b.year && (a.month < b.month || (a.month == b.month && a.day < b.day)))
  }

  /** The date on which a pull was closed, in UTC, with the time of day dropped. */
  function ClosedDate(pull: Pull): Date {
    pull.closedAt.date
  }

  /** The three optional clauses of the filter; an absent clause accepts everything. */
  datatype Predicate = Predicate(since: Option<Date>, until: Option<Date>, excludeLogin: Option<string>)

  /** `opt.map(f).unwrap_or(true)`. */
  function MapOrTrue<T>(opt: Option<T>, f: T -> bool): bool {
    match opt
    case Some(v) => f(v)
    case None => true
  }

  /** Whether a pull belongs in the report. */
  function Test(pred: Predicate, pull: Pull): (accepted: bool)
    ensures accepted <==>
      (pred.since.Some? ==> Precedes(pred.since.value, ClosedDate(pull))) &&
      (pred.until.Some? ==> Precedes(ClosedDate(pull), pred.until.value)) &&
      (pred.excludeLogin.Some? ==> pull.user.login != pred.excludeLogin.value)
  {
    var closed := ClosedDate(pull);
    MapOrTrue(pred.since, (since: Date) => Precedes(since, closed)) &&
    MapOrTrue(pred.until, (until: Date) => Precedes(closed, until)) &&
    MapOrTrue(pred.excludeLogin, (login: string) => login != pull.user.login)
  }

  /** Precedes is a strict total order on dates. */
  lemma PrecedesIsStrictTotalOrder(a: Date, b: Date, c: Date)
    ensures !Precedes(a, a)
    ensures Precedes(a, b) && Precedes(b, c) ==> Precedes(a, c)
    ensures a == b || Precedes(a, b) || Precedes(b, a)
  {
  }

  /** Both date bounds are exclusive; between them only the login clause matters. */
  lemma TestBoundaries(since: Date, until: Date, login: Option<string>, pull: Pull)
    ensures ClosedDate(pull) == since ==> !Test(Predicate(Some(since), Some(until), login), pull)
    ensures ClosedDate(pull) == until ==> !Test(Predicate(Some(since), Some(until), login), pull)
    ensures Precedes(since, ClosedDate(pull)) && Precedes(ClosedDate(pull), until) ==>
      (Test(Predicate(Some(since), Some(until), login), pull) <==> login != Some(pull.user.login))
  {
  }

  /** The filter is the conjunction of its three clauses, each tested on its own. */
  lemma TestIsConjunction(pred: Predicate, pull: Pull)
    ensures Test(pred, pull) ==
      (Test(Predicate(pred.since, None, None), pull) &&
       Test(Predicate(None, pred.until, None), pull) &&
       Test(Predicate(None, None, pred.excludeLogin), pull))
    ensures Test(Predicate(None, None, None), pull)
  {
  }

  /** Only the date of the closing instant is looked at, never its time of day. */
  lemma TestIgnoresTimeOfDay(pred: Predicate, pull: Pull, second: nat)
    ensures Test(pred, pull) == Test(pred, pull.(closedAt := Timestamp(pull.closedAt.date, second)))
  {
  }

  /** The two layouts `parse_date` hands to chrono. */
  datatype DateFormat =
    | SlashedYearFirst   // "%Y/%m/%d"
    | DottedDayFirst     // "%d.%m.%Y"

  /** chrono's `NaiveDate::parse_from_str`, which this model does not reimplement. */
  type DateParser = (string, DateFormat) -> Result<Date, string>

  /** The three attempts of `parse_date`, in the order they are made. */
  function Attempts(s: string, currentYear: int): (attempts: seq<(string, DateFormat)>)
    ensures |attempts| == 3
    ensures attempts[0] == (s, SlashedYearFirst) && attempts[1] == (s, DottedDayFirst)
    ensures attempts[2] == (s + "." + IntToString(currentYear), DottedDayFirst)
  {
    [(s, SlashedYearFirst), (s, DottedDayFirst), (s + "." + IntToString(currentYear), DottedDayFirst)]
  }

  /**
   * `parse_date`: the first attempt that parses wins; when none does, the
   * error is the one of the last attempt (`dd.mm` completed with the current year).
   */
  function ParseDate(parse: DateParser, s: string, currentYear: int): (r: Result<Date, string>)
    ensures var attempts := Attempts(s, currentYear);
      r.Ok? <==> exists i | 0 <= i < 3 :: parse(attempts[i].0, attempts[i].1).Ok?
    ensures var attempts := Attempts(s, currentYear);
      r.Ok? ==> exists i | 0 <= i < 3 ::
        (r == parse(attempts[i].0, attempts[i].1) && forall j | 0 <= j < i :: parse(attempts[j].0, attempts[j].1).Err?)
    ensures r.Err? ==> r == parse(s + "." + IntToString(currentYear), DottedDayFirst)
  {
    var attempts := Attempts(s, currentYear);
    match parse(s, SlashedYearFirst)
    case Ok(d) =>
      assert parse(attempts[0].0, attempts[0].1) == Ok(d);
      Ok(d)
    case Err(_) =>
      match parse(s, DottedDayFirst)
      case Ok(d) =>
        assert parse(attempts[1].0, attempts[1].1) == Ok(d);
        Ok(d)
      case Err(_) =>
        assert parse(attempts[2].0, attempts[2].1) == parse(s + "." + IntToString(currentYear), DottedDayFirst);
        parse(s + "." + IntToString(currentYear), DottedDayFirst)
  }

  function DigitChar(d: nat): (c: char)
    requires d < 10
    ensures '0' <= c <= '9'
  {
    "0123456789"[d]
  }

  /** The decimal digits of `n`, most significant first, without leading zeros. */
  function NatToString(n: nat): (s: string)
    ensures |s| > 0 && forall i | 0 <= i < |s| :: '0' <= s[i] <= '9'
    ensures |s| > 1 ==> s[0] != '0'
    decreases n
  {
    if n < 10 then [DigitChar(n)] else NatToString(n / 10) + [DigitChar(n % 10)]
  }

  /** How `format!("{}", year)` writes an integer. */
  function IntToString(n: int): (s: string)
    ensures |s| > 0 && (s[0] == '-' <==> n < 0)
  {
    if n < 0 then "-" + NatToString(-n) else NatToString(n)
  }

  /** The value of a string of decimal digits. */
  function DigitsValue(s: string): int {
    if s == [] then 0 else 10 * DigitsValue(s[..|s| - 1]) + (s[|s| - 1] as int - '0' as int)
  }

  /** The value of an optionally signed string of decimal digits. */
  function SignedValue(s: string): int {
    if s != [] && s[0] == '-' then -DigitsValue(s[1..]) else DigitsValue(s)
  }

  /** IntToString loses nothing: reading the sign and the digits back gives the number. */
  lemma IntToStringRoundTrip(n: int)
    ensures SignedValue(IntToString(n)) == n
  {
    var digits := NatToString(if n < 0 then -n else n);
    NatToStringRoundTrip(if n < 0 then -n else n);
    if n < 0 {
      assert IntToString(n) == "-" + digits;
      assert IntToString(n)[1..] == digits;
    } else {
      assert IntToString(n) == digits && digits[0] != '-';
    }
  }

  /** NatToString loses nothing: reading the digits back gives the number. */
  lemma {:induction false} NatToStringRoundTrip(n: nat)
    ensures DigitsValue(NatToString(n)) == n
    decreases n
  {
    var s := NatToString(n);
    if n >= 10 {
      NatToStringRoundTrip(n / 10);
      assert s[..|s| - 1] == NatToString(n / 10);
    }
  }
}
