/**
 * The rows of the NYPL tables: a location from the NYPL locations API, a branch
 * scraped from the NYPL locations list, and the join key `str(name) + " " + str(zip)`
 * both tables are keyed by before they are merged.
 */
module Records {
  import opened Wrappers
  import opened Text

  /** pandas' `astype(str)` on a nullable text cell: a missing value becomes "None". */
  function PyStr(x: Option<string>): string {
    match x
    case None => "None"
    case Some(s) => s
  }

  /** The join key `str(name) + " " + str(zip)`. */
  function JoinKey(name: Option<string>, zip: Option<string>): string {
    PyStr(name) + " " + PyStr(zip)
  }

  /**
   * The last word of a join key is the zip it was built from, whenever the zip is a
   * single non-empty word (as a zip taken by `split()[-1]` always is) or missing.
   */
  lemma JoinKeyEndsWithZip(name: Option<string>, zip: Option<string>)
    requires zip.Some? ==> zip.value != [] && NoSpace(zip.value)
    ensures var w := Split(JoinKey(name, zip)); w != [] && w[|w| - 1] == PyStr(zip)
  {
    var key := JoinKey(name, zip);
    var z := PyStr(zip);
    var b := |key| - |z|;
    assert key[b - 1] == ' ';
    assert key[b..] == z;
    LastWordAfterSpace(key, b);
  }

  /** A location of the NYPL locations API (`data.refineryAllLocations.locations[*]`). */
  datatype Location = Location(
    id: string,
    name: Option<string>,
    addressLine1: Option<string>,
    addressLine2: Option<string>,
    locality: Option<string>,
    administrativeArea: Option<string>,
    postalCode: Option<string>,
    typename: Option<string>)

  /**
   * A branch as scraped from the NYPL locations list: the seven columns name, url,
   * address, zip, phone, accessibility and map link, each possibly missing.
   */
  datatype Listing = Listing(
    name: Option<string>,
    url: Option<string>,
    address: Option<string>,
    zip: Option<string>,
    phone: Option<string>,
    accessibility: Option<string>,
    mapLink: Option<string>)

  /**
   * A row of the merged NYPL table: the API location, the scraped listing it was joined
   * with, and the weekday columns written into it so far.
   */
  datatype Branch = Branch(location: Location, listing: Listing, days: map<string, string>)

  /**
   * `df["name"] = df["name"].astype(str) + " " + df["postal_code"].astype(str)` over the
   * locations of the API: a table built from no locations has no "name" column at all.
   */
  function KeyLocations(locations: seq<Location>): (r: Result<seq<Location>>)
    ensures locations == [] <==> r == Err(KeyError)
    ensures r.Ok? ==> |r.value| == |locations| && forall n | 0 <= n < |locations| ::
      r.value[n].name == Some(JoinKey(locations[n].name, locations[n].postalCode))
      && r.value[n].(name := locations[n].name) == locations[n]
  {
    if locations == [] then Err(KeyError)
    else Ok(seq(|locations|, n requires 0 <= n < |locations| =>
      locations[n].(name := Some(JoinKey(locations[n].name, locations[n].postalCode)))))
  }

  /** The same re-keying over the scraped list, by name and zip. */
  function KeyListings(rows: seq<Listing>): (r: Result<seq<Listing>>)
    ensures rows == [] <==> r == Err(KeyError)
    ensures r.Ok? ==> |r.value| == |rows| && forall n | 0 <= n < |rows| ::
      r.value[n].name == Some(JoinKey(rows[n].name, rows[n].zip))
      && r.value[n].(name := rows[n].name) == rows[n]
  {
    if rows == [] then Err(KeyError)
    else Ok(seq(|rows|, n requires 0 <= n < |rows| => rows[n].(name := Some(JoinKey(rows[n].name, rows[n].zip)))))
  }

  /** The join column of a keyed location and of a keyed scraped row. */
  function LocationKey(l: Location): string {
    PyStr(l.name)
  }

  function ListingKey(l: Listing): string {
    PyStr(l.name)
  }
}
