/**
 * Writing the scraped hours into the merged NYPL table: for each (id, hours) entry, in
 * insertion order, and each weekday Monday to Sunday, the column of that weekday is set
 * to `hours[day]` on every row whose id equals the entry's id. A map that lacks a
 * weekday raises `KeyError` there; the cells written before it stay written.
 */
module ActiveHours {
  import opened Wrappers
  import opened Dicts
  import opened Records
  import opened Hours

  /** `df.loc[df['id'] == id, day] = v` on one row. */
  function SetDay(b: Branch, id: string, day: string, v: string): Branch {
    if b.location.id == id then b.(days := b.days[day := v]) else b
  }

  /** `df.loc[df['id'] == id, day] = v` on the whole table. */
  function SetDayWhere(rows: seq<Branch>, id: string, day: string, v: string): seq<Branch> {
    seq(|rows|, k requires 0 <= k < |rows| => SetDay(rows[k], id, day, v))
  }

  /** `df.loc[df['id'] == id, day] = v`, written into the table in place. */
  method WriteColumn(a: array<Branch>, id: string, day: string, v: string)
    modifies a
    ensures a[..] == SetDayWhere(old(a[..]), id, day, v)
  {
    var k := 0;
    while k < a.Length
      invariant 0 <= k <= a.Length
      invariant a[..k] == SetDayWhere(old(a[..]), id, day, v)[..k]
      invariant a[k..] == old(a[k..])
    {
      assert a[k] == old(a[k..])[0];
      a[k] := SetDay(a[k], id, day, v);
      k := k + 1;
    }
  }

  /** The inner loop over Monday to Sunday for one id, in place; a missing day stops it with `KeyError`. */
  method WriteDays(a: array<Branch>, id: string, hours: map<string, string>) returns (err: Option<PyError>)
    modifies a
    ensures ApplyDays(old(a[..]), id, hours, Weekdays) == Outcome(a[..], err)
  {
    var d := 0;
    while d < |Weekdays|
      invariant 0 <= d <= |Weekdays|
      invariant ApplyDays(a[..], id, hours, Weekdays[d..]) == ApplyDays(old(a[..]), id, hours, Weekdays)
    {
      var day := Weekdays[d];
      if day !in hours {
        return Some(KeyError);
      }
      WriteColumn(a, id, day, hours[day]);
      assert Weekdays[d..][1..] == Weekdays[d + 1..];
      d := d + 1;
    }
    return None;
  }

  /** The entries of `hours` for the given days. */
  function Restrict(hours: map<string, string>, days: seq<string>): map<string, string> {
    map d | d in hours && d in days :: hours[d]
  }

  /** The columns of `m` other than the given days. */
  function Outside(m: map<string, string>, days: seq<string>): map<string, string> {
    map d | d in m && d !in days :: m[d]
  }

  /** The table after an attempt to write `hours` into the given days, and the error that ended it, if any. */
  datatype Outcome = Outcome(rows: seq<Branch>, error: Option<PyError>)

  /** The inner loop over the days, for one id. */
  function ApplyDays(rows: seq<Branch>, id: string, hours: map<string, string>, days: seq<string>): (r: Outcome)
    ensures |r.rows| == |rows|
    ensures r.error.None? <==> forall n | 0 <= n < |days| :: days[n] in hours
    ensures r.error.Some? ==> r.error.value == KeyError
    ensures forall k | 0 <= k < |rows| :: r.rows[k].location == rows[k].location && r.rows[k].listing == rows[k].listing
    ensures forall k | 0 <= k < |rows| && rows[k].location.id != id :: r.rows[k] == rows[k]
    ensures forall k | 0 <= k < |rows| :: Outside(r.rows[k].days, days) == Outside(rows[k].days, days)
    ensures r.error.None? ==> forall k | 0 <= k < |rows| && rows[k].location.id == id ::
      r.rows[k].days == rows[k].days + Restrict(hours, days)
    decreases |days|
  {
    if days == [] then Outcome(rows, None)
    else if days[0] !in hours then Outcome(rows, Some(KeyError))
    else
      var next := SetDayWhere(rows, id, days[0], hours[days[0]]);
      var r := ApplyDays(next, id, hours, days[1..]);
      assert forall n | 1 <= n < |days| :: days[n] == days[1..][n - 1];
      assert forall k | 0 <= k < |rows| :: Outside(r.rows[k].days, days) == Outside(rows[k].days, days) by {
        forall k | 0 <= k < |rows| ensures Outside(r.rows[k].days, days) == Outside(rows[k].days, days) {
          OutsideStep(rows[k].days, next[k].days, r.rows[k].days, days, hours[days[0]]);
        }
      }
      assert r.error.None? ==> forall k | 0 <= k < |rows| && rows[k].location.id == id ::
        r.rows[k].days == rows[k].days + Restrict(hours, days) by {
        if r.error.None? {
          forall k | 0 <= k < |rows| && rows[k].location.id == id
            ensures r.rows[k].days == rows[k].days + Restrict(hours, days)
          {
            RestrictStep(rows[k].days, hours, days);
          }
        }
      }
      r
  }

  /** Writing the first day and then the rest leaves the other columns alone. */
  lemma OutsideStep(m0: map<string, string>, m1: map<string, string>, m2: map<string, string>, days: seq<string>, v: string)
    requires days != []
    requires m1 == m0 || m1 == m0[days[0] := v]
    requires Outside(m2, days[1..]) == Outside(m1, days[1..])
    ensures Outside(m2, days) == Outside(m0, days)
  {
    forall d | d !in days ensures (d in m2 <==> d in m0) && (d in m0 ==> m2[d] == m0[d]) {
      assert d !in days[1..];
      assert d in m2 <==> d in Outside(m2, days[1..]);
      assert d in m1 <==> d in Outside(m1, days[1..]);
    }
  }

  /** Writing the first day and then the rest writes all of them. */
  lemma RestrictStep(m: map<string, string>, hours: map<string, string>, days: seq<string>)
    requires days != [] && days[0] in hours
    ensures m[days[0] := hours[days[0]]] + Restrict(hours, days[1..]) == m + Restrict(hours, days)
  {
    var lhs := m[days[0] := hours[days[0]]] + Restrict(hours, days[1..]);
    var rhs := m + Restrict(hours, days);
    forall d | d in days ensures d == days[0] || d in days[1..] {
      var n :| 0 <= n < |days| && days[n] == d;
      if n > 0 {
        assert days[1..][n - 1] == d;
      }
    }
    assert lhs.Keys == rhs.Keys;
  }

  /** When every day is present, a row gets the hours if its id matches and is untouched otherwise. */
  lemma ApplyDaysRow(rows: seq<Branch>, id: string, hours: map<string, string>, k: nat)
    requires k < |rows| && ApplyDays(rows, id, hours, Weekdays).error.None?
    ensures ApplyDays(rows, id, hours, Weekdays).rows[k] ==
      if rows[k].location.id == id then rows[k].(days := rows[k].days + Restrict(hours, Weekdays)) else rows[k]
  {
  }

  /** The outer loop over the entries of the hours dict, in insertion order; the first error stops it. */
  function ApplyHours(rows: seq<Branch>, entries: seq<(string, map<string, string>)>): (r: Outcome)
    ensures |r.rows| == |rows|
    ensures r.error.None? <==> forall e | 0 <= e < |entries| :: WeekdaySet <= entries[e].1.Keys
    ensures r.error.Some? ==> r.error.value == KeyError
    decreases |entries|
  {
    if entries == [] then Outcome(rows, None)
    else
      var o := ApplyDays(rows, entries[0].0, entries[0].1, Weekdays);
      assert (forall n | 0 <= n < |Weekdays| :: Weekdays[n] in entries[0].1) <==> WeekdaySet <= entries[0].1.Keys;
      assert (forall e | 0 <= e < |entries| :: WeekdaySet <= entries[e].1.Keys) <==>
        WeekdaySet <= entries[0].1.Keys && forall e | 0 <= e < |entries[1..]| :: WeekdaySet <= entries[1..][e].1.Keys by {
        assert forall e | 0 <= e < |entries[1..]| :: entries[1..][e] == entries[e + 1];
      }
      if o.error.Some? then o
      else ApplyHours(o.rows, entries[1..])
  }

  /** One entry of the outer loop: its days are written, and the loop stops at its error or goes on. */
  lemma ApplyHoursStep(rows: seq<Branch>, entries: seq<(string, map<string, string>)>)
    requires entries != []
    ensures var o := ApplyDays(rows, entries[0].0, entries[0].1, Weekdays);
      ApplyHours(rows, entries) == if o.error.Some? then o else ApplyHours(o.rows, entries[1..])
  {
  }

  /** The outer loop over the entries, in place: each id's days in turn, stopping at the first `KeyError`. */
  method WriteHours(a: array<Branch>, entries: seq<(string, map<string, string>)>) returns (err: Option<PyError>)
    modifies a
    ensures ApplyHours(old(a[..]), entries) == Outcome(a[..], err)
  {
    var e := 0;
    while e < |entries|
      invariant 0 <= e <= |entries|
      invariant ApplyHours(a[..], entries[e..]) == ApplyHours(old(a[..]), entries)
    {
      ghost var before := a[..];
      assert entries[e..][1..] == entries[e + 1..];
      ApplyHoursStep(before, entries[e..]);
      var failed := WriteDays(a, entries[e].0, entries[e].1);
      if failed.Some? {
        return failed;
      }
      e := e + 1;
    }
    return None;
  }

  /**
   * Whatever the outcome, only the weekday columns of rows whose id has an entry are
   * written: the location and listing of every row, its other columns, and every row
   * whose id has no hours, are as they were.
   */
  lemma {:induction false} ApplyHoursKeeps(rows: seq<Branch>, entries: seq<(string, map<string, string>)>, k: nat)
    requires k < |rows|
    ensures var after := ApplyHours(rows, entries).rows[k];
      after.location == rows[k].location && after.listing == rows[k].listing
      && Outside(after.days, Weekdays) == Outside(rows[k].days, Weekdays)
      && (Get(entries, rows[k].location.id).None? ==> after == rows[k])
    decreases |entries|
  {
    if entries != [] {
      var o := ApplyDays(rows, entries[0].0, entries[0].1, Weekdays);
      if o.error.None? {
        ApplyHoursKeeps(o.rows, entries[1..], k);
        if Get(entries, rows[k].location.id).None? {
          assert rows[k].location.id != entries[0].0;
          forall e | 0 <= e < |entries[1..]| ensures entries[1..][e].0 != rows[k].location.id {
            assert entries[1..][e] == entries[e + 1];
          }
        }
      }
    }
  }

  /**
   * Once every entry has all seven weekdays, a row whose id has hours gets exactly those
   * hours in its seven weekday columns.
   */
  lemma {:induction false} ApplyHoursWrites(rows: seq<Branch>, entries: seq<(string, map<string, string>)>, k: nat, hours: map<string, string>)
    requires DistinctKeys(entries) && ApplyHours(rows, entries).error.None? && k < |rows|
    requires Get(entries, rows[k].location.id) == Some(hours)
    ensures ApplyHours(rows, entries).rows[k] == rows[k].(days := rows[k].days + Restrict(hours, Weekdays))
    decreases |entries|
  {
    var id := rows[k].location.id;
    var o := ApplyDays(rows, entries[0].0, entries[0].1, Weekdays);
    ApplyHoursStep(rows, entries);
    assert o.error.None?;
    ApplyDaysRow(rows, entries[0].0, entries[0].1, k);
    DistinctTail(entries);
    if entries[0].0 == id {
      assert entries[0].1 == hours;
      ApplyHoursKeeps(o.rows, entries[1..], k);
    } else {
      ApplyHoursWrites(o.rows, entries[1..], k, hours);
    }
  }
}
