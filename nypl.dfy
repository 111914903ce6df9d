/**
 * The NYPL scraper as an object that carries its tables from phase to phase: the list
 * of branches scraped from the locations page, that list joined with the locations of
 * the NYPL API, the hours scraped from each branch page, and the hours written into
 * the joined table.
 */
module NyplLibrary {
  import opened Wrappers
  import opened Dicts
  import opened Records
  import opened Join
  import opened BranchList
  import opened Hours
  import opened ActiveHours

  /** The join key of an API location, from its own name and postal code. */
  function LocationJoinKey(l: Location): string {
    JoinKey(l.name, l.postalCode)
  }

  /** A joined row before any hours are written into it. */
  function Unscheduled(p: (Location, Listing)): Branch {
    Branch(p.0, p.1, map[])
  }

  /**
   * The joined table: the API locations re-keyed by name and postal code, merged one to
   * one with the (already re-keyed) scraped list. A table built from no locations or no
   * scraped rows has no "name" column, so either is a `KeyError`.
   */
  function MergedTable(locations: seq<Location>, listing: seq<Listing>): (r: Result<seq<Branch>>)
    ensures locations == [] || listing == [] ==> r == Err(KeyError)
    ensures locations != [] && listing != [] ==>
      (r.Err? <==> !UniqueKeys(locations, LocationJoinKey) || !UniqueKeys(listing, ListingKey))
    ensures r.Err? && locations != [] && listing != [] ==> r.error == MergeError
  {
    var keyed :- KeyLocations(locations);
    if listing == [] then Err(KeyError)
    else
      KeyedUnique(locations);
      var pairs :- MergeOneToOne(keyed, listing, LocationKey, ListingKey);
      Ok(seq(|pairs|, k requires 0 <= k < |pairs| => Unscheduled(pairs[k])))
  }

  /** Re-keying a location makes its join column its join key, so uniqueness carries over. */
  lemma KeyedUnique(locations: seq<Location>)
    requires locations != []
    ensures UniqueKeys(KeyLocations(locations).value, LocationKey) <==> UniqueKeys(locations, LocationJoinKey)
  {
    var keyed := KeyLocations(locations).value;
    assert forall n | 0 <= n < |keyed| :: LocationKey(keyed[n]) == LocationJoinKey(locations[n]);
  }

  /**
   * Every row of the joined table pairs a re-keyed API location with a scraped row of the
   * same key, has no hours yet, and no location appears twice.
   */
  lemma {:induction false} MergedRows(locations: seq<Location>, listing: seq<Listing>)
    requires MergedTable(locations, listing).Ok?
    ensures var keyed := KeyLocations(locations).value; var t := MergedTable(locations, listing).value;
      |t| <= |locations|
      && (forall k | 0 <= k < |t| :: t[k].location in keyed && t[k].listing in listing
            && LocationKey(t[k].location) == ListingKey(t[k].listing) && t[k].days == map[])
      && forall a, b | 0 <= a < b < |t| :: t[a].location.name != t[b].location.name
  {
    var keyed := KeyLocations(locations).value;
    var pairs := InnerJoin(keyed, listing, LocationKey, ListingKey);
    var t := MergedTable(locations, listing).value;
    KeyedUnique(locations);
    assert |t| == |pairs| && forall k | 0 <= k < |t| :: t[k] == Unscheduled(pairs[k]);
    JoinKeysUnique(keyed, listing, LocationKey, ListingKey);
    forall a, b | 0 <= a < b < |t| ensures t[a].location.name != t[b].location.name {
      assert LocationKey(pairs[a].0) != LocationKey(pairs[b].0);
    }
  }

  /** A location whose key some scraped row shares is in the joined table, with that row. */
  lemma MergedKeepsMatched(locations: seq<Location>, listing: seq<Listing>, i: nat, j: nat)
    requires MergedTable(locations, listing).Ok?
    requires i < |locations| && j < |listing| && LocationJoinKey(locations[i]) == ListingKey(listing[j])
    ensures Unscheduled((KeyLocations(locations).value[i], listing[j])) in MergedTable(locations, listing).value
  {
    var keyed := KeyLocations(locations).value;
    var pairs := InnerJoin(keyed, listing, LocationKey, ListingKey);
    JoinKeepsMatched(keyed, listing, LocationKey, ListingKey, i, j);
    var k :| 0 <= k < |pairs| && pairs[k] == (keyed[i], listing[j]);
    assert MergedTable(locations, listing).value[k] == Unscheduled(pairs[k]);
  }

  /** The (id, url) pairs of the joined table, in row order. */
  function Targets(rows: seq<Branch>): seq<(string, Option<string>)> {
    seq(|rows|, k requires 0 <= k < |rows| => (rows[k].location.id, rows[k].listing.url))
  }

  /**
   * The scraper object. `listing` is `self.libraries` as the list phase leaves it,
   * `libraries` the joined table the merge phase puts in its place, and `df` the alias
   * of it that the hours are written through.
   */
  class Nypl {
    const rootUrl: string
    var unorderedList: seq<ListItem>
    var listing: seq<Listing>
    var libraries: array<Branch>
    var libraryHours: seq<(string, map<string, string>)>
    var df: array<Branch>

    constructor ()
      ensures rootUrl == "https://www.nypl.org/"
      ensures unorderedList == [] && listing == [] && libraries.Length == 0 && libraryHours == [] && df == libraries
    {
      rootUrl := "https://www.nypl.org/";
      unorderedList := [];
      listing := [];
      libraries := new Branch[0];
      libraryHours := [];
      df := libraries;
    }

    /** Keeps the list items the locations page shows; the browser that fetched them is the parameter. */
    method ScrapeUnorderedList(items: seq<ListItem>)
      modifies this
      ensures unorderedList == items
      ensures listing == old(listing) && libraries == old(libraries) && libraryHours == old(libraryHours) && df == old(df)
    {
      unorderedList := items;
    }

    /**
     * One record per list item, in document order, re-keyed by name and zip. An item that
     * raises aborts the phase and leaves `listing` as it was; an empty list replaces it
     * with an empty table and then raises `KeyError`.
     */
    method ProcessUnorderedList() returns (err: Option<PyError>)
      modifies this
      ensures unorderedList == old(unorderedList) && libraries == old(libraries)
      ensures libraryHours == old(libraryHours) && df == old(df)
      ensures match ListingTable(unorderedList)
        case Ok(t) => err.None? && listing == t
        case Err(e) => err == Some(e) && listing == if ItemRecords(unorderedList).Ok? then [] else old(listing)
    {
      var records := ReadRecords(unorderedList);
      if records.Err? {
        return Some(records.error);
      }
      var rows := records.value;
      if rows == [] {
        listing := [];
        return Some(KeyError);
      }
      listing := KeyListings(rows).value;
      return None;
    }

    /**
     * Joins the API locations (read back from the stored response, here the parameter)
     * with the scraped list; on an error the joined table is not replaced.
     */
    method MergeLibrariesAndResponse(locations: seq<Location>) returns (err: Option<PyError>)
      modifies this
      ensures unorderedList == old(unorderedList) && listing == old(listing)
      ensures libraryHours == old(libraryHours) && df == old(df)
      ensures match MergedTable(locations, listing)
        case Ok(t) => err.None? && fresh(libraries) && libraries[..] == t
        case Err(e) => err == Some(e) && libraries == old(libraries)
    {
      var t := MergedTable(locations, listing);
      if t.Err? {
        return Some(t.error);
      }
      var rows := t.value;
      libraries := new Branch[|rows|](k requires 0 <= k < |rows| => rows[k]);
      return None;
    }

    /**
     * Visits the page of every row of the joined table, in order, and records its hours
     * by id; returns the urls of the pages that could not be read. What the browser shows
     * at each url is the parameter.
     */
    method ScrapeActiveHours(pages: Option<string> -> PageVisit) returns (unableToScrape: seq<Option<string>>)
      modifies this
      ensures unorderedList == old(unorderedList) && listing == old(listing)
      ensures libraries == old(libraries) && df == old(df)
      ensures ScrapeAll(Targets(libraries[..]), Outcomes(pages)) == Scrape(libraryHours, unableToScrape)
    {
      libraryHours, unableToScrape := VisitPages(Targets(libraries[..]), pages);
    }

    /**
     * Writes each id's hours into the seven weekday columns of its rows, through `df`,
     * which is the joined table itself; a missing weekday raises `KeyError` and leaves
     * the cells already written.
     */
    method ProcessActiveHours() returns (err: Option<PyError>)
      modifies this, libraries
      ensures df == libraries && libraries == old(libraries)
      ensures unorderedList == old(unorderedList) && listing == old(listing) && libraryHours == old(libraryHours)
      ensures ApplyHours(old(libraries[..]), libraryHours) == Outcome(libraries[..], err)
    {
      df := libraries;
      err := WriteHours(df, libraryHours);
    }
  }
}
