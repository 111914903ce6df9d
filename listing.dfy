/**
 * One branch of the NYPL locations list (an `li` of the list page) and the record both
 * NYPL scrapers extract from it: name and url from the heading link, address and zip
 * from the address block, phone, accessibility and the "Get Directions" map link.
 */
module BranchList {
  import opened Wrappers
  import opened Text
  import opened Records

  /** A `div.chakra-stack` block of a list item. */
  datatype StackBlock = StackBlock(
    hasIcon: bool,                /* holds an `svg` with role "img" */
    hasClockIcon: bool,           /* holds an `svg` titled "clock icon" */
    texts: seq<Fragment>,         /* its `div.css-0` sub-blocks, in document order */
    hoursText: Option<Fragment>,  /* its first `div.css-1xsa88d` */
    anchors: seq<Anchor>)         /* its `a` elements, in document order */

  /** An `li` of the locations list. */
  datatype ListItem = ListItem(
    headingLink: Option<Anchor>,  /* the first `a` of the first `h2.chakra-heading` */
    address: Option<Fragment>,    /* the first `div.address` */
    phone: Option<Fragment>,      /* the first `div.phone` */
    stacks: seq<StackBlock>)      /* its `div.chakra-stack` blocks, in document order */

  /**
   * `address_div.text.strip().split()[-1] if address_div else None`: the last word of the
   * address; a blank address block has no words and raises `IndexError`.
   */
  function ZipOf(address: Option<Fragment>): (r: Result<Option<string>>)
    ensures address.None? ==> r == Ok(None)
    ensures address.Some? ==> (r.Err? <==> AllSpace(ElementText(address.value)))
    ensures r.Err? ==> r.error == IndexError
    ensures r.Ok? && address.Some? ==> r.value.Some? && IsLastWord(Strip(ElementText(address.value)), r.value.value)
  {
    match address
    case None => Ok(None)
    case Some(t) =>
      var a := Strip(ElementText(t));
      var words := Split(a);
      if words == [] then Err(IndexError)
      else
        SplitLast(a);
        Ok(Some(words[|words| - 1]))
  }

  /** A block that holds an icon and at least one text sub-block. */
  predicate DescribesAccess(b: StackBlock) {
    b.hasIcon && b.texts != []
  }

  /** The stripped text of the last text sub-block of the first block that describes access, if any. */
  function Accessibility(stacks: seq<StackBlock>): Option<string> {
    if stacks == [] then None
    else if DescribesAccess(stacks[0]) then
      var texts := stacks[0].texts;
      Some(Strip(ElementText(texts[|texts| - 1])))
    else Accessibility(stacks[1..])
  }

  /** Accessibility is read from the first block that qualifies, and from its last text sub-block. */
  lemma {:induction false} AccessibilityIsFirst(stacks: seq<StackBlock>, i: nat)
    requires i < |stacks| && DescribesAccess(stacks[i])
    requires forall j | 0 <= j < i :: !DescribesAccess(stacks[j])
    ensures var texts := stacks[i].texts; Accessibility(stacks) == Some(Strip(ElementText(texts[|texts| - 1])))
  {
    if i > 0 {
      assert stacks[1..][i - 1] == stacks[i];
      AccessibilityIsFirst(stacks[1..], i - 1);
    }
  }

  /** Accessibility is missing exactly when no block qualifies: icon blocks without text are skipped. */
  lemma {:induction false} AccessibilityNone(stacks: seq<StackBlock>)
    ensures Accessibility(stacks).None? <==> forall j | 0 <= j < |stacks| :: !DescribesAccess(stacks[j])
  {
    if stacks != [] && !DescribesAccess(stacks[0]) {
      AccessibilityNone(stacks[1..]);
      assert forall j | 1 <= j < |stacks| :: stacks[j] == stacks[1..][j - 1];
    }
  }

  /** The loop over the stack blocks that looks for the accessibility text. */
  method FindAccessibility(stacks: seq<StackBlock>) returns (info: Option<string>)
    ensures info == Accessibility(stacks)
  {
    info := None;
    var n := 0;
    while n < |stacks|
      invariant n <= |stacks|
      invariant forall j | 0 <= j < n :: !DescribesAccess(stacks[j])
    {
      var div := stacks[n];
      if div.hasIcon {
        var texts := div.texts;
        if texts != [] {
          info := Some(Strip(ElementText(texts[|texts| - 1])));
          AccessibilityIsFirst(stacks, n);
          return;
        }
      }
      n := n + 1;
    }
    AccessibilityNone(stacks);
  }

  /**
   * An anchor matched by `string='Get Directions'`: its `.string` is exactly
   * "Get Directions", so an anchor that holds that text beside another child is not one.
   */
  predicate IsDirections(a: Anchor) {
    a.soleString == Some("Get Directions")
  }

  /** `div.find('a', string='Get Directions')`: the first such anchor of a block. */
  function Directions(anchors: seq<Anchor>): (r: Option<Anchor>)
    ensures r.None? <==> forall k | 0 <= k < |anchors| :: !IsDirections(anchors[k])
    ensures r.Some? ==> IsDirections(r.value) && r.value in anchors
  {
    if anchors == [] then None
    else if IsDirections(anchors[0]) then Some(anchors[0])
    else
      var r := Directions(anchors[1..]);
      assert forall k | 1 <= k < |anchors| :: anchors[k] == anchors[1..][k - 1];
      r
  }

  /** A block that holds a "Get Directions" anchor. */
  predicate HasDirections(b: StackBlock) {
    Directions(b.anchors).Some?
  }

  /** The href of the "Get Directions" anchor of the first block that has one, or none; a missing href raises. */
  function MapLink(stacks: seq<StackBlock>): Result<Option<string>> {
    if stacks == [] then Ok(None)
    else match Directions(stacks[0].anchors)
      case Some(a) =>
        var href :- Href(a);
        Ok(Some(href))
      case None => MapLink(stacks[1..])
  }

  /** The map link is read from the first block that has a "Get Directions" anchor, and nowhere else. */
  lemma {:induction false} MapLinkIsFirst(stacks: seq<StackBlock>, i: nat)
    requires i < |stacks| && HasDirections(stacks[i])
    requires forall j | 0 <= j < i :: !HasDirections(stacks[j])
    ensures var a := Directions(stacks[i].anchors).value;
      MapLink(stacks) == if a.href.None? then Err(KeyError) else Ok(a.href)
  {
    if i > 0 {
      assert stacks[1..][i - 1] == stacks[i];
      MapLinkIsFirst(stacks[1..], i - 1);
    }
  }

  /** The map link is missing (without error) exactly when no block has a "Get Directions" anchor. */
  lemma {:induction false} MapLinkNone(stacks: seq<StackBlock>)
    ensures MapLink(stacks) == Ok(None) <==> forall j | 0 <= j < |stacks| :: !HasDirections(stacks[j])
  {
    if stacks != [] && !HasDirections(stacks[0]) {
      MapLinkNone(stacks[1..]);
      assert forall j | 1 <= j < |stacks| :: stacks[j] == stacks[1..][j - 1];
    }
  }

  /** The loop over the stack blocks that looks for the map link. */
  method FindMapLink(stacks: seq<StackBlock>) returns (r: Result<Option<string>>)
    ensures r == MapLink(stacks)
  {
    var n := 0;
    while n < |stacks|
      invariant n <= |stacks|
      invariant forall j | 0 <= j < n :: !HasDirections(stacks[j])
    {
      var a := Directions(stacks[n].anchors);
      if a.Some? {
        MapLinkIsFirst(stacks, n);
        if a.value.href.None? {
          return Err(KeyError);
        }
        return Ok(a.value.href);
      }
      n := n + 1;
    }
    MapLinkNone(stacks);
    return Ok(None);
  }

  /** The name and url of the heading link; a link without href raises `KeyError`. */
  function HeadingUrl(item: ListItem): Result<Option<string>> {
    match item.headingLink
    case None => Ok(None)
    case Some(a) =>
      var href :- Href(a);
      Ok(Some(href))
  }

  function HeadingName(item: ListItem): Option<string> {
    match item.headingLink
    case None => None
    case Some(a) => Some(Strip(ElementText(a.text)))
  }

  /**
   * The record of one list item, its fields read in the order the scraper reads them,
   * so that the first raising field decides the error.
   */
  function ItemRecord(item: ListItem): (r: Result<Listing>)
    ensures r.Err? <==> HeadingUrl(item).Err? || ZipOf(item.address).Err? || MapLink(item.stacks).Err?
    ensures r.Ok? ==> (r.value.zip.Some? <==> item.address.Some?)
  {
    var url :- HeadingUrl(item);
    var zip :- ZipOf(item.address);
    var mapLink :- MapLink(item.stacks);
    Ok(Listing(HeadingName(item), url, TextOrNone(item.address, TextStripped), zip, TextOrNone(item.phone, TextStripped),
      Accessibility(item.stacks), mapLink))
  }

  /** The body of the loop over list items: one item's record. */
  method ExtractItem(item: ListItem) returns (r: Result<Listing>)
    ensures r == ItemRecord(item)
  {
    var name := None;
    var url := None;
    if item.headingLink.Some? {
      var a := item.headingLink.value;
      name := Some(Strip(ElementText(a.text)));
      if a.href.None? {
        assert HeadingUrl(item) == Err(KeyError);
        return Err(KeyError);
      }
      url := a.href;
    }
    assert HeadingUrl(item) == Ok(url) && HeadingName(item) == name;
    var address := None;
    var zip := None;
    if item.address.Some? {
      var text := Strip(ElementText(item.address.value));
      address := Some(text);
      var words := Split(text);
      if words == [] {
        assert ZipOf(item.address) == Err(IndexError);
        return Err(IndexError);
      }
      zip := Some(words[|words| - 1]);
    }
    assert ZipOf(item.address) == Ok(zip) && TextOrNone(item.address, TextStripped) == address;
    var phone := TextOrNone(item.phone, TextStripped);
    var accessibility := FindAccessibility(item.stacks);
    var mapLink := FindMapLink(item.stacks);
    if mapLink.Err? {
      return Err(mapLink.error);
    }
    return Ok(Listing(name, url, address, zip, phone, accessibility, mapLink.value));
  }

  /** The records of the items, in document order; the first item that raises aborts the loop. */
  function ItemRecords(items: seq<ListItem>): Result<seq<Listing>> {
    Collect(items, ItemRecord)
  }

  /** The loop stops at the first item that raises, with that item's error. */
  lemma ItemRecordsStopsAt(items: seq<ListItem>, n: nat)
    requires n < |items| && ItemRecords(items[..n]).Ok? && ItemRecord(items[n]).Err?
    ensures ItemRecords(items) == Err(ItemRecord(items[n]).error)
  {
    CollectStopsAt(items, ItemRecord, n);
  }

  /** The loop over the list items: the records in order, or the error of the first item that raises. */
  method ReadRecords(items: seq<ListItem>) returns (r: Result<seq<Listing>>)
    ensures r == ItemRecords(items)
  {
    var rows: seq<Listing> := [];
    var n := 0;
    while n < |items|
      invariant 0 <= n <= |items|
      invariant ItemRecords(items[..n]) == Ok(rows)
    {
      var rec := ExtractItem(items[n]);
      if rec.Err? {
        ItemRecordsStopsAt(items, n);
        return Err(rec.error);
      }
      assert items[..n + 1] == items[..n] + [items[n]];
      CollectSnoc(items[..n], items[n], ItemRecord);
      rows := rows + [rec.value];
      n := n + 1;
    }
    assert items[..n] == items;
    return Ok(rows);
  }

  /**
   * The scraped table re-keyed for the merge: no items leave a table without a "name"
   * column, and the re-keying raises `KeyError`.
   */
  function ListingTable(items: seq<ListItem>): (r: Result<seq<Listing>>)
    ensures r.Ok? <==> items != [] && ItemRecords(items).Ok?
    ensures r.Ok? ==> |r.value| == |items|
  {
    var rows :- ItemRecords(items);
    KeyListings(rows)
  }

  /** The key of every row of the scraped table ends with that row's zip, or with "None" when there is none. */
  lemma ListingKeysEndWithZip(items: seq<ListItem>)
    requires ListingTable(items).Ok?
    ensures var rows := ListingTable(items).value; forall n | 0 <= n < |rows| ::
      var w := Split(ListingKey(rows[n])); w != [] && w[|w| - 1] == PyStr(rows[n].zip)
  {
    var records := ItemRecords(items).value;
    var rows := ListingTable(items).value;
    forall n | 0 <= n < |rows| ensures var w := Split(ListingKey(rows[n])); w != [] && w[|w| - 1] == PyStr(rows[n].zip) {
      var zip := records[n].zip;
      assert zip == ItemRecord(items[n]).value.zip;
      assert zip == ZipOf(items[n].address).value;
      assert rows[n].zip == zip;
      JoinKeyEndsWithZip(records[n].name, zip);
    }
  }
}
