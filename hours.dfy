/**
 * The opening hours of an NYPL branch page. The browser waits for one of three headers
 * (a "Regular Hours" heading, a "Temporarily Closed" notice, an "Upcoming Hours" tab);
 * what it finds is an input here. The header text decides how the page is read, and
 * any failure to find an element on the way marks the page as not scraped.
 */
module Hours {
  import opened Wrappers
  import opened Text
  import opened Dicts

  const Weekdays: seq<string> := ["Monday", "Tuesday", "Wednesday", "Thursday", "Friday", "Saturday", "Sunday"]
  const WeekdaySet: set<string> := {"Monday", "Tuesday", "Wednesday", "Thursday", "Friday", "Saturday", "Sunday"}
  const Closed: string := "Temporarily Closed"

  /** The rows of a table, each row its `th` cell texts followed by its `td` cell texts. */
  type Table = seq<seq<string>>

  /** A row of the upcoming-hours table: the texts of its day, date and hours cells, where found. */
  datatype UpcomingRow = UpcomingRow(day: Option<string>, date: Option<string>, hours: Option<string>)

  /** What the browser finds on a branch page. */
  datatype PageVisit =
    | NoHeader  /* none of the three headers became visible in time */
    | Shown(
        header: string,                      /* the text of the header that became visible */
        regular: Option<Table>,              /* the table following the header, if there is one */
        upcoming: Option<seq<UpcomingRow>>)  /* the body rows of the upcoming-hours panel, if it shows */

  /** The outcome for one page: its day-to-hours map, a failure, or a header that matches none of the three. */
  datatype PageResult = Recorded(hours: map<string, string>) | Failed | Unrecorded

  /** The text of a cell, or `''` when the row is too short. */
  function Cell(row: seq<string>, n: nat): string {
    if n < |row| then row[n] else ""
  }

  /** The (day, hours) assignments of a regular-hours table: its rows after the header row. */
  function RegularPairs(table: Table): seq<(string, string)> {
    if table == [] then []
    else seq(|table| - 1, i requires 0 <= i < |table| - 1 => (Cell(table[i + 1], 0), Cell(table[i + 1], 1)))
  }

  function RegularHours(table: Table): map<string, string> {
    AssignAll(map[], RegularPairs(table))
  }

  /** The days of a regular-hours table are the first cells of the rows after the header row. */
  lemma RegularHoursDays(table: Table)
    ensures RegularHours(table).Keys == set i | 1 <= i < |table| :: Cell(table[i], 0)
  {
    var ps := RegularPairs(table);
    AssignAllKeys(map[], ps);
    var fromPairs := set n | 0 <= n < |ps| :: ps[n].0;
    var fromRows := set i | 1 <= i < |table| :: Cell(table[i], 0);
    forall d | d in fromRows ensures d in fromPairs {
      var i :| 1 <= i < |table| && Cell(table[i], 0) == d;
      assert ps[i - 1].0 == d;
    }
  }

  /** The hours of a day are those of the last row that names the day. */
  lemma RegularHoursLastRowWins(table: Table, i: nat)
    requires 1 <= i < |table|
    requires forall j | i < j < |table| :: Cell(table[j], 0) != Cell(table[i], 0)
    ensures Cell(table[i], 0) in RegularHours(table)
    ensures RegularHours(table)[Cell(table[i], 0)] == Cell(table[i], 1)
  {
    var ps := RegularPairs(table);
    forall j | i - 1 < j < |ps| ensures ps[j].0 != ps[i - 1].0 {
      assert ps[j].0 == Cell(table[j + 1], 0);
    }
    AssignAllLastWins(map[], ps, i - 1);
  }

  /** The loop over the rows of the regular-hours table. */
  method CollectRegularHours(table: Table) returns (hours: map<string, string>)
    ensures hours == RegularHours(table)
  {
    ghost var ps := RegularPairs(table);
    hours := map[];
    var n := 1;
    while n < |table|
      invariant 1 <= n <= |table| + 1 && (table != [] ==> n <= |table|)
      invariant hours == AssignAll(map[], ps[..n - 1])
    {
      var row := table[n];
      var day := Cell(row, 0);
      var h := Cell(row, 1);
      assert ps[..n][..n - 1] == ps[..n - 1];
      hours := hours[day := h];
      n := n + 1;
    }
    assert ps[..n - 1] == ps;
  }

  /** The text of a found cell. */
  function Found(o: Option<string>): string {
    match o
    case None => ""
    case Some(s) => s
  }

  /** A row in which the day, date and hours cells were all found. */
  predicate Complete(r: UpcomingRow) {
    r.day.Some? && r.date.Some? && r.hours.Some?
  }

  /** The (day, hours) assignment of an upcoming-hours row, both stripped; the date is read and dropped. */
  function UpcomingPair(r: UpcomingRow): (string, string) {
    (Strip(Found(r.day)), Strip(Found(r.hours)))
  }

  function UpcomingPairs(rows: seq<UpcomingRow>): seq<(string, string)> {
    if rows == [] then [] else [UpcomingPair(rows[0])] + UpcomingPairs(rows[1..])
  }

  lemma {:induction false} UpcomingPairsAt(rows: seq<UpcomingRow>, i: nat)
    requires i < |rows|
    ensures |UpcomingPairs(rows)| == |rows| && UpcomingPairs(rows)[i] == UpcomingPair(rows[i])
    decreases |rows|
  {
    if i > 0 {
      UpcomingPairsAt(rows[1..], i - 1);
    } else {
      UpcomingPairsLength(rows);
    }
  }

  lemma {:induction false} UpcomingPairsLength(rows: seq<UpcomingRow>)
    ensures |UpcomingPairs(rows)| == |rows|
  {
    if rows != [] {
      UpcomingPairsLength(rows[1..]);
    }
  }

  /** The upcoming-hours loop from a partly filled map on: the first row missing a cell fails it. */
  function UpcomingFrom(hours: map<string, string>, rows: seq<UpcomingRow>): Option<map<string, string>>
    decreases |rows|
  {
    if rows == [] then Some(hours)
    else if !Complete(rows[0]) then None
    else
      var p := UpcomingPair(rows[0]);
      UpcomingFrom(hours[p.0 := p.1], rows[1..])
  }

  /** The day-to-hours map of an upcoming-hours table. */
  function UpcomingHours(rows: seq<UpcomingRow>): Option<map<string, string>> {
    UpcomingFrom(map[], rows)
  }

  /** The loop fails exactly when some row misses a cell, and otherwise makes the assignments of all rows in order. */
  lemma {:induction false} UpcomingFromAssigns(hours: map<string, string>, rows: seq<UpcomingRow>)
    ensures UpcomingFrom(hours, rows).None? <==> exists i | 0 <= i < |rows| :: !Complete(rows[i])
    ensures UpcomingFrom(hours, rows).Some? ==> UpcomingFrom(hours, rows).value == AssignAll(hours, UpcomingPairs(rows))
    decreases |rows|
  {
    if rows != [] {
      var p := UpcomingPair(rows[0]);
      UpcomingFromAssigns(hours[p.0 := p.1], rows[1..]);
      if Complete(rows[0]) {
        AssignAllCons(hours, p, UpcomingPairs(rows[1..]));
        forall i | 1 <= i < |rows| ensures rows[i] == rows[1..][i - 1] {
        }
      }
    }
  }

  /** The upcoming hours fail exactly when a row misses its day, date or hours cell. */
  lemma UpcomingHoursFail(rows: seq<UpcomingRow>)
    ensures UpcomingHours(rows).None? <==> exists i | 0 <= i < |rows| :: !Complete(rows[i])
  {
    UpcomingFromAssigns(map[], rows);
  }

  /** A complete upcoming-hours table maps each stripped day to the stripped hours of the last row naming it. */
  lemma UpcomingHoursLastRowWins(rows: seq<UpcomingRow>, i: nat)
    requires UpcomingHours(rows).Some? && i < |rows|
    requires forall j | i < j < |rows| :: UpcomingPair(rows[j]).0 != UpcomingPair(rows[i]).0
    ensures UpcomingPair(rows[i]).0 in UpcomingHours(rows).value
    ensures UpcomingHours(rows).value[UpcomingPair(rows[i]).0] == UpcomingPair(rows[i]).1
  {
    UpcomingFromAssigns(map[], rows);
    var ps := UpcomingPairs(rows);
    UpcomingPairsAt(rows, i);
    forall j | i < j < |ps| ensures ps[j].0 != ps[i].0 {
      UpcomingPairsAt(rows, j);
    }
    AssignAllLastWins(map[], ps, i);
  }

  /** The days of a complete upcoming-hours table are its stripped day cells. */
  lemma UpcomingHoursDays(rows: seq<UpcomingRow>)
    requires UpcomingHours(rows).Some?
    ensures UpcomingHours(rows).value.Keys == set i | 0 <= i < |rows| :: UpcomingPair(rows[i]).0
  {
    UpcomingFromAssigns(map[], rows);
    var ps := UpcomingPairs(rows);
    UpcomingPairsLength(rows);
    AssignAllKeys(map[], ps);
    var fromPairs := set n | 0 <= n < |ps| :: ps[n].0;
    var fromRows := set i | 0 <= i < |rows| :: UpcomingPair(rows[i]).0;
    forall d | d in fromRows ensures d in fromPairs {
      var i :| 0 <= i < |rows| && UpcomingPair(rows[i]).0 == d;
      UpcomingPairsAt(rows, i);
      assert ps[i].0 == d;
    }
    forall d | d in fromPairs ensures d in fromRows {
      var n :| 0 <= n < |ps| && ps[n].0 == d;
      UpcomingPairsAt(rows, n);
    }
  }

  /** The loop over the rows of the upcoming-hours table; the first row with a missing cell ends it. */
  method CollectUpcomingHours(rows: seq<UpcomingRow>) returns (r: Option<map<string, string>>)
    ensures r == UpcomingHours(rows)
  {
    var hours := map[];
    var n := 0;
    while n < |rows|
      invariant n <= |rows|
      invariant UpcomingFrom(hours, rows[n..]) == UpcomingHours(rows)
    {
      var row := rows[n];
      assert rows[n..][0] == row;
      if row.day.None? || row.date.None? || row.hours.None? {
        return None;
      }
      var day := Strip(row.day.value);
      var h := Strip(row.hours.value);
      assert rows[n..][1..] == rows[n + 1..];
      hours := hours[day := h];
      n := n + 1;
    }
    return Some(hours);
  }

  /** Every weekday, temporarily closed. */
  const ClosedWeek: map<string, string> := map d | d in WeekdaySet :: Closed

  /** How a page is read, by the stripped text of the header that became visible. */
  function PageHours(visit: PageVisit): PageResult {
    match visit
    case NoHeader => Failed
    case Shown(header, regular, upcoming) =>
      var h := Strip(header);
      if h == "Regular Hours" then
        if regular.None? then Failed else Recorded(RegularHours(regular.value))
      else if h == Closed then Recorded(ClosedWeek)
      else if h == "Upcoming Hours" then
        if upcoming.None? then Failed
        else match UpcomingHours(upcoming.value)
          case None => Failed
          case Some(m) => Recorded(m)
      else Unrecorded
  }

  /** A temporarily closed branch is recorded as closed on exactly the seven weekdays, whatever its tables hold. */
  lemma ClosedPage(header: string, regular: Option<Table>, upcoming: Option<seq<UpcomingRow>>)
    requires Strip(header) == Closed
    ensures var r := PageHours(Shown(header, regular, upcoming));
      r.Recorded? && r.hours.Keys == WeekdaySet && |r.hours| == 7 && forall d | d in r.hours :: r.hours[d] == Closed
  {
    assert Closed != "Regular Hours";
    assert ClosedWeek.Keys == WeekdaySet;
  }

  /** The body of the scraper's `try` block for one page. */
  method ScrapePage(visit: PageVisit) returns (r: PageResult)
    ensures r == PageHours(visit)
  {
    if visit.NoHeader? {
      return Failed;
    }
    var h := Strip(visit.header);
    if h == "Regular Hours" {
      if visit.regular.None? {
        return Failed;
      }
      var hours := CollectRegularHours(visit.regular.value);
      return Recorded(hours);
    } else if h == Closed {
      return Recorded(ClosedWeek);
    } else if h == "Upcoming Hours" {
      if visit.upcoming.None? {
        return Failed;
      }
      var hours := CollectUpcomingHours(visit.upcoming.value);
      if hours.None? {
        return Failed;
      }
      return Recorded(hours.value);
    }
    return Unrecorded;
  }

  /** What the scraper makes of the page at each url. */
  function Outcomes(pages: Option<string> -> PageVisit): Option<string> -> PageResult {
    url => PageHours(pages(url))
  }

  /** The state the scrape loop builds: the hours per branch id, and the urls of the pages that failed. */
  datatype Scrape = Scrape(hours: seq<(string, map<string, string>)>, failed: seq<Option<string>>)

  /** The scrape over the (id, url) rows of the branch table, in order, given the outcome of each url. */
  function ScrapeAll(targets: seq<(string, Option<string>)>, outcome: Option<string> -> PageResult): Scrape
    decreases |targets|
  {
    if targets == [] then Scrape([], [])
    else
      var s := ScrapeAll(targets[..|targets| - 1], outcome);
      var (id, url) := targets[|targets| - 1];
      match outcome(url)
      case Recorded(m) => s.(hours := Put(s.hours, id, m))
      case Failed => s.(failed := s.failed + [url])
      case Unrecorded => s
  }

  /** The loop over the (id, url) rows: visit each page in order, record its hours by id or its url as failed. */
  method VisitPages(targets: seq<(string, Option<string>)>, pages: Option<string> -> PageVisit)
    returns (hours: seq<(string, map<string, string>)>, failed: seq<Option<string>>)
    ensures ScrapeAll(targets, Outcomes(pages)) == Scrape(hours, failed)
  {
    hours := [];
    failed := [];
    var n := 0;
    while n < |targets|
      invariant 0 <= n <= |targets|
      invariant ScrapeAll(targets[..n], Outcomes(pages)) == Scrape(hours, failed)
    {
      var id := targets[n].0;
      var url := targets[n].1;
      var page := ScrapePage(pages(url));
      assert targets[..n + 1][..n] == targets[..n];
      match page {
        case Recorded(m) => hours := Put(hours, id, m);
        case Failed => failed := failed + [url];
        case Unrecorded =>
      }
      n := n + 1;
    }
    assert targets[..n] == targets;
  }

  /** The hours are a dict: one entry per id. */
  lemma {:induction false} ScrapeDistinct(targets: seq<(string, Option<string>)>, outcome: Option<string> -> PageResult)
    ensures DistinctKeys(ScrapeAll(targets, outcome).hours)
    decreases |targets|
  {
    if targets != [] {
      var init := targets[..|targets| - 1];
      ScrapeDistinct(init, outcome);
      var (id, url) := targets[|targets| - 1];
      if outcome(url).Recorded? {
        PutDistinct(ScrapeAll(init, outcome).hours, id, outcome(url).hours);
      }
    }
  }

  /** The hours after one more row: its page's hours put under its id, if the page recorded any. */
  lemma ScrapeHoursStep(targets: seq<(string, Option<string>)>, outcome: Option<string> -> PageResult)
    requires targets != []
    ensures var last := targets[|targets| - 1]; var before := ScrapeAll(targets[..|targets| - 1], outcome).hours;
      ScrapeAll(targets, outcome).hours ==
        if outcome(last.1).Recorded? then Put(before, last.0, outcome(last.1).hours) else before
  {
  }

  /** An id has hours only if one of its pages recorded exactly those hours. */
  lemma {:induction false} ScrapeHoursFromPage(targets: seq<(string, Option<string>)>, outcome: Option<string> -> PageResult, id: string, m: map<string, string>)
    requires Get(ScrapeAll(targets, outcome).hours, id) == Some(m)
    ensures exists i | 0 <= i < |targets| :: targets[i].0 == id && outcome(targets[i].1) == Recorded(m)
    decreases |targets|
  {
    var init := targets[..|targets| - 1];
    var last := |targets| - 1;
    var before := ScrapeAll(init, outcome).hours;
    var lid := targets[last].0;
    var url := targets[last].1;
    ScrapeHoursStep(targets, outcome);
    if outcome(url).Recorded? {
      PutGet(before, lid, outcome(url).hours);
    }
    if lid == id && outcome(url).Recorded? {
      assert outcome(targets[last].1) == Recorded(m);
    } else {
      assert Get(before, id) == Some(m);
      ScrapeHoursFromPage(init, outcome, id, m);
      var i :| 0 <= i < |init| && init[i].0 == id && outcome(init[i].1) == Recorded(m);
      assert targets[i] == init[i];
    }
  }

  /**
   * The hours of an id are those of its last page that recorded any: a later page of the
   * same id that fails or is unrecognised does not remove them.
   */
  lemma {:induction false} ScrapeLastRecordedWins(targets: seq<(string, Option<string>)>, outcome: Option<string> -> PageResult, i: nat)
    requires i < |targets| && outcome(targets[i].1).Recorded?
    requires forall j | i < j < |targets| && targets[j].0 == targets[i].0 :: !outcome(targets[j].1).Recorded?
    ensures Get(ScrapeAll(targets, outcome).hours, targets[i].0) == Some(outcome(targets[i].1).hours)
    decreases |targets|
  {
    var init := targets[..|targets| - 1];
    var s := ScrapeAll(init, outcome);
    var (lid, url) := targets[|targets| - 1];
    if outcome(url).Recorded? {
      PutGet(s.hours, lid, outcome(url).hours);
    }
    if i < |targets| - 1 {
      assert init[i] == targets[i];
      ScrapeLastRecordedWins(init, outcome, i);
    }
  }

  /** An id none of whose pages recorded hours has no entry. */
  lemma ScrapeNoHours(targets: seq<(string, Option<string>)>, outcome: Option<string> -> PageResult, id: string)
    requires forall i | 0 <= i < |targets| && targets[i].0 == id :: !outcome(targets[i].1).Recorded?
    ensures Get(ScrapeAll(targets, outcome).hours, id).None?
  {
    var r := Get(ScrapeAll(targets, outcome).hours, id);
    if r.Some? {
      ScrapeHoursFromPage(targets, outcome, id, r.value);
    }
  }

  /** The failures are the urls of the pages that failed, one per failing row at most, in row order. */
  lemma {:induction false} ScrapeFailures(targets: seq<(string, Option<string>)>, outcome: Option<string> -> PageResult)
    ensures var f := ScrapeAll(targets, outcome).failed;
      |f| <= |targets|
      && (forall n | 0 <= n < |f| :: outcome(f[n]) == Failed)
      && forall i | 0 <= i < |targets| && outcome(targets[i].1) == Failed :: targets[i].1 in f
    decreases |targets|
  {
    if targets != [] {
      var init := targets[..|targets| - 1];
      ScrapeFailures(init, outcome);
      forall i | 0 <= i < |init| ensures init[i] == targets[i] {
      }
    }
  }
}
