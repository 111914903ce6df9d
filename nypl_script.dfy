/**
 * The function-based NYPL scraper: the API table keyed by name and postal code, the
 * list page scraped into a table that also carries today's hours, and the two joined
 * one to one on `name` against `Name`.
 */
module NyplScript {
  import opened Wrappers
  import opened Text
  import opened Records
  import opened Join
  import opened BranchList
  import opened NyplLibrary

  /** A row of the scraped table: the columns the class variant extracts, and today's hours. */
  datatype HtmlRow = HtmlRow(listing: Listing, todaysHours: Option<string>)

  /** The join column `Name` of a scraped row. */
  function HtmlKey(r: HtmlRow): string {
    PyStr(r.listing.name)
  }

  /**
   * `get_json_response`: on status 200 the API locations keyed by name and postal code
   * (no locations leave no "name" column to key); on any other status no table at all.
   */
  function JsonTable(status: int, locations: seq<Location>): (r: Result<Option<seq<Location>>>)
    ensures status != 200 ==> r == Ok(None)
    ensures status == 200 ==> (r.Err? <==> locations == []) && (r.Err? ==> r.error == KeyError)
    ensures status == 200 && r.Ok? ==> (r.value.Some? && |r.value.value| == |locations|
      && forall n | 0 <= n < |locations| :: LocationKey(r.value.value[n]) == LocationJoinKey(locations[n]))
  {
    if status == 200 then
      var keyed :- KeyLocations(locations);
      Ok(Some(keyed))
    else Ok(None)
  }

  /** The first stack block with a clock icon, if any. */
  function ClockBlock(stacks: seq<StackBlock>): (r: Option<StackBlock>)
    ensures r.None? <==> forall j | 0 <= j < |stacks| :: !stacks[j].hasClockIcon
    ensures r.Some? ==> r.value in stacks && r.value.hasClockIcon
  {
    if stacks == [] then None
    else if stacks[0].hasClockIcon then Some(stacks[0])
    else
      var r := ClockBlock(stacks[1..]);
      assert forall j | 1 <= j < |stacks| :: stacks[j] == stacks[1..][j - 1];
      r
  }

  /** Today's hours: the hours text of the first clock-icon block, stripped. */
  function TodaysHours(stacks: seq<StackBlock>): Option<string> {
    match ClockBlock(stacks)
    case None => None
    case Some(b) => TextOrNone(b.hoursText, TextStripped)
  }

  /**
   * Only the first clock-icon block is read: when it has no hours text the column is
   * empty, whatever later blocks hold.
   */
  lemma {:induction false} TodaysHoursFirstOnly(stacks: seq<StackBlock>, i: nat)
    requires i < |stacks| && stacks[i].hasClockIcon
    requires forall j | 0 <= j < i :: !stacks[j].hasClockIcon
    ensures TodaysHours(stacks) == TextOrNone(stacks[i].hoursText, TextStripped)
    ensures stacks[i].hoursText.None? ==> TodaysHours(stacks).None?
  {
    if i > 0 {
      assert !stacks[0].hasClockIcon;
      assert forall j | 0 <= j < i - 1 :: stacks[1..][j] == stacks[j + 1];
      TodaysHoursFirstOnly(stacks[1..], i - 1);
    }
  }

  /** Without a clock-icon block there are no hours for today. */
  lemma TodaysHoursNone(stacks: seq<StackBlock>)
    requires forall j | 0 <= j < |stacks| :: !stacks[j].hasClockIcon
    ensures TodaysHours(stacks).None?
  {
  }

  /** The loop that looks for the clock-icon block and reads its hours. */
  method FindTodaysHours(stacks: seq<StackBlock>) returns (hours: Option<string>)
    ensures hours == TodaysHours(stacks)
  {
    var n := 0;
    while n < |stacks|
      invariant 0 <= n <= |stacks|
      invariant forall j | 0 <= j < n :: !stacks[j].hasClockIcon
    {
      if stacks[n].hasClockIcon {
        TodaysHoursFirstOnly(stacks, n);
        return TextOrNone(stacks[n].hoursText, TextStripped);
      }
      n := n + 1;
    }
    return None;
  }

  /**
   * `get_from_html` after the browser: the rows of the class variant's table, each
   * with today's hours beside it.
   */
  function HtmlTable(items: seq<ListItem>): (r: Result<seq<HtmlRow>>)
    ensures r.Ok? <==> ListingTable(items).Ok?
    ensures r.Err? ==> r == Err(ListingTable(items).error)
    ensures r.Ok? ==> |r.value| == |items| && forall k | 0 <= k < |items| ::
      r.value[k].listing == ListingTable(items).value[k] && r.value[k].todaysHours == TodaysHours(items[k].stacks)
  {
    var rows :- ListingTable(items);
    Ok(seq(|rows|, k requires 0 <= k < |rows| => HtmlRow(rows[k], TodaysHours(items[k].stacks))))
  }

  /** The scraped table, assembled from the records and today's hours of all items. */
  lemma {:induction false} HtmlTableOf(items: seq<ListItem>, rows: seq<Listing>, todays: seq<Option<string>>)
    requires ItemRecords(items) == Ok(rows) && rows != []
    requires |todays| == |items| && forall k | 0 <= k < |items| :: todays[k] == TodaysHours(items[k].stacks)
    ensures var keyed := KeyListings(rows).value;
      HtmlTable(items) == Ok(seq(|keyed|, k requires 0 <= k < |keyed| => HtmlRow(keyed[k], todays[k])))
  {
    var keyed := KeyListings(rows).value;
    assert |rows| == |items| && |keyed| == |rows|;
    assert ListingTable(items) == Ok(keyed);
    var table := seq(|keyed|, k requires 0 <= k < |keyed| => HtmlRow(keyed[k], todays[k]));
    var html := seq(|keyed|, k requires 0 <= k < |keyed| => HtmlRow(keyed[k], TodaysHours(items[k].stacks)));
    assert HtmlTable(items) == Ok(html);
    assert table == html;
  }

  /** Today's hours of each item, in order. */
  function TodaysAll(items: seq<ListItem>): (r: seq<Option<string>>)
    ensures |r| == |items|
    decreases |items|
  {
    if items == [] then [] else TodaysAll(items[..|items| - 1]) + [TodaysHours(items[|items| - 1].stacks)]
  }

  /** The hours of the k-th item are that item's today's hours. */
  lemma {:induction false} TodaysAllAt(items: seq<ListItem>, k: nat)
    requires k < |items|
    ensures TodaysAll(items)[k] == TodaysHours(items[k].stacks)
    decreases |items|
  {
    if k < |items| - 1 {
      var init := items[..|items| - 1];
      TodaysAllAt(init, k);
      assert init[k] == items[k];
    }
  }

  /** One more item adds its today's hours at the end. */
  lemma TodaysAllSnoc(items: seq<ListItem>, n: nat)
    requires n < |items|
    ensures TodaysAll(items[..n + 1]) == TodaysAll(items[..n]) + [TodaysHours(items[n].stacks)]
  {
    assert items[..n + 1][..n] == items[..n];
  }

  /** The loop over the list items: each item's record and today's hours, or the error of the first item that raises. */
  method ReadItems(items: seq<ListItem>) returns (r: Result<seq<Listing>>, todays: seq<Option<string>>)
    ensures r == ItemRecords(items)
    ensures r.Ok? ==> todays == TodaysAll(items)
  {
    var rows: seq<Listing> := [];
    todays := [];
    var n := 0;
    while n < |items|
      invariant 0 <= n <= |items|
      invariant ItemRecords(items[..n]) == Ok(rows)
      invariant todays == TodaysAll(items[..n])
    {
      var rec := ExtractItem(items[n]);
      if rec.Err? {
        ItemRecordsStopsAt(items, n);
        return Err(rec.error), todays;
      }
      var hours := FindTodaysHours(items[n].stacks);
      TodaysAllSnoc(items, n);
      assert items[..n + 1] == items[..n] + [items[n]];
      CollectSnoc(items[..n], items[n], ItemRecord);
      rows := rows + [rec.value];
      todays := todays + [hours];
      n := n + 1;
    }
    assert items[..n] == items;
    return Ok(rows), todays;
  }

  /** `get_from_html` after the browser: the loop over the items, then the table keyed for the merge. */
  method GetFromHtml(items: seq<ListItem>) returns (r: Result<seq<HtmlRow>>)
    ensures r == HtmlTable(items)
  {
    var records, todays := ReadItems(items);
    if records.Err? {
      return Err(records.error);
    }
    var rows := records.value;
    if rows == [] {
      return Err(KeyError);
    }
    var keyed := KeyListings(rows).value;
    forall k | 0 <= k < |items| ensures todays[k] == TodaysHours(items[k].stacks) {
      TodaysAllAt(items, k);
    }
    HtmlTableOf(items, rows, todays);
    return Ok(seq(|keyed|, k requires 0 <= k < |keyed| => HtmlRow(keyed[k], todays[k])));
  }

  /**
   * `store_libraries_nypl` before the file is written: the API table is fetched first
   * and the list page second, so an error of the API table wins; a missing API table
   * fails the merge with `AttributeError`; then the one-to-one inner join.
   */
  function StoreLibrariesNypl(status: int, locations: seq<Location>, items: seq<ListItem>): (r: Result<seq<(Location, HtmlRow)>>)
    ensures status == 200 && locations == [] ==> r == Err(KeyError)
    ensures status != 200 && ListingTable(items).Ok? ==> r == Err(AttributeError)
    ensures r.Ok? ==> (status == 200 && ListingTable(items).Ok? && |r.value| <= |locations|
      && forall n | 0 <= n < |r.value| :: HtmlKey(r.value[n].1) == LocationKey(r.value[n].0))
  {
    var json :- JsonTable(status, locations);
    var html :- HtmlTable(items);
    if json.None? then Err(AttributeError)
    else MergeOneToOne(json.value, html, LocationKey, HtmlKey)
  }

  /**
   * The two NYPL scrapers agree: on status 200 the script's join fails exactly when the
   * class's does, and otherwise pairs the same locations with the same scraped rows,
   * in the same order.
   */
  lemma ScriptAgreesWithClass(locations: seq<Location>, items: seq<ListItem>)
    requires ListingTable(items).Ok?
    ensures var s := StoreLibrariesNypl(200, locations, items); var t := MergedTable(locations, ListingTable(items).value);
      (s.Ok? <==> t.Ok?) && (s.Ok? ==> |s.value| == |t.value| && forall n | 0 <= n < |s.value| ::
        s.value[n].0 == t.value[n].location && s.value[n].1.listing == t.value[n].listing)
  {
    if locations != [] {
      var listing := ListingTable(items).value;
      var html := HtmlTable(items).value;
      var keyed := KeyLocations(locations).value;
      StoreIsMerge(locations, items);
      assert |html| == |listing| && forall j | 0 <= j < |listing| ::
        HtmlListing(html[j]) == listing[j] && HtmlKey(html[j]) == ListingKey(listing[j]);
      MergeProject(keyed, listing, html, HtmlListing, LocationKey, ListingKey, HtmlKey);
      KeyedUnique(locations);
    }
  }

  /** The scraped row's listing columns. */
  function HtmlListing(h: HtmlRow): Listing {
    h.listing
  }

  /** With an API table, the script's result is the one-to-one merge of the two tables. */
  lemma StoreIsMerge(locations: seq<Location>, items: seq<ListItem>)
    requires locations != [] && ListingTable(items).Ok?
    ensures StoreLibrariesNypl(200, locations, items) ==
      MergeOneToOne(KeyLocations(locations).value, HtmlTable(items).value, LocationKey, HtmlKey)
  {
    assert JsonTable(200, locations) == Ok(Some(KeyLocations(locations).value));
  }
}
