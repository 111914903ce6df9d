/**
 * The Queens Public Library scraper: each location card of the stored locations
 * response becomes one row (a dict, in column insertion order) holding the branch
 * name, address, phone, image url, link, and one column per opening-hours label.
 */
module Queens {
  import opened Wrappers
  import opened Text
  import opened Dicts

  const RootUrl: string := "https://www.queenslibrary.org/"

  /** The branch name of the card that stands for the online library, which is skipped. */
  const Sentinel: string := "aaQPLAnywhere"

  /** The first `img` of a card, with its `src` attribute if it has one. */
  datatype Img = Img(src: Option<string>)

  /** The first `div.call-to-action` of a card, with the first `a` inside it if any. */
  datatype CallToAction = CallToAction(link: Option<Anchor>)

  /** A `div.office-hours__item`: its first label span, if any, and its slot spans. */
  datatype HoursItem = HoursItem(labelSpan: Option<Fragment>, slots: seq<Fragment>)

  /** The parsed card HTML of a location. */
  datatype Card = Card(
    address: Option<Fragment>,  /* the first `div.address` */
    phone: Option<Fragment>,    /* the first `div.phone` */
    img: Option<Img>,
    cta: Option<CallToAction>,
    hours: seq<HoursItem>)      /* the `div.office-hours__item` elements, in document order */

  /** An entry of `locationCards`. */
  datatype LocationCard = LocationCard(branchName: string, card: Card)

  /** A row of the table: column name to cell, in insertion order; `None` is a null cell. */
  type Row = seq<(string, Option<string>)>

  /** `root_url + img['src']`: no `img` is `None + ...`, a `TypeError`; an `img` without `src` a `KeyError`. */
  function ImageUrl(card: Card): (r: Result<string>)
    ensures r.Ok? ==> RootUrl <= r.value
  {
    match card.img
    case None => Err(TypeError)
    case Some(img) =>
      match img.src
      case None => Err(KeyError)
      case Some(src) => Ok(RootUrl + src)
  }

  /**
   * `root_url + div.find('a')['href']`: no call-to-action block is `None.find`, an
   * `AttributeError`; no `a` in it is `None[...]`, a `TypeError`; no `href` a `KeyError`.
   */
  function LinkUrl(card: Card): (r: Result<string>)
    ensures r.Ok? ==> RootUrl <= r.value
  {
    match card.cta
    case None => Err(AttributeError)
    case Some(cta) =>
      match cta.link
      case None => Err(TypeError)
      case Some(a) =>
        var href :- Href(a);
        Ok(RootUrl + href)
  }

  /** An hours item's day: the label's stripped text with every ':' removed; no label is an `AttributeError`. */
  function DayLabel(item: HoursItem): (r: Result<string>)
    ensures r.Err? <==> item.labelSpan.None?
    ensures r.Err? ==> r.error == AttributeError
    ensures r.Ok? ==> ':' !in r.value
    ensures r.Ok? ==> r.value == Remove(StrippedText(item.labelSpan.value), ':')
  {
    match item.labelSpan
    case None => Err(AttributeError)
    case Some(l) => Ok(Remove(StrippedText(l), ':'))
  }

  /** The stripped text of each slot span, in document order. */
  function SlotTexts(slots: seq<Fragment>): seq<string> {
    seq(|slots|, k requires 0 <= k < |slots| => StrippedText(slots[k]))
  }

  /**
   * An hours item's cell: the stripped slot texts joined by " - ". No slots give the
   * empty string, one slot its own text, and each further slot adds " - " and its text.
   */
  function SlotText(item: HoursItem): (r: string)
    ensures item.slots == [] ==> r == ""
    ensures |item.slots| == 1 ==> r == StrippedText(item.slots[0])
    ensures |item.slots| >= 2 ==>
      var n := |item.slots| - 1;
      r == SlotText(HoursItem(item.labelSpan, item.slots[..n])) + " - " + StrippedText(item.slots[n])
    decreases |item.slots|, 0
  {
    var n := |item.slots| - 1;
    assert |item.slots| >= 2 ==> (Join(" - ", SlotTexts(item.slots)) ==
      Join(" - ", SlotTexts(item.slots[..n])) + " - " + StrippedText(item.slots[n])) by {
      if |item.slots| >= 2 {
        assert SlotTexts(item.slots) == SlotTexts(item.slots[..n]) + [StrippedText(item.slots[n])];
        JoinAppend(" - ", SlotTexts(item.slots[..n]), [StrippedText(item.slots[n])]);
      }
    }
    Join(" - ", SlotTexts(item.slots))
  }

  /** The five fixed columns of a card's row, in the order they are assigned. */
  const FixedColumns: seq<string> := ["branch_name", "address", "phone", "image_url", "link"]

  /** The row before its hours: the fixed columns, or the first error of the image and the link. */
  function CardBase(lc: LocationCard): Result<Row> {
    var image :- ImageUrl(lc.card);
    var link :- LinkUrl(lc.card);
    Ok([("branch_name", Some(lc.branchName)),
        ("address", TextOrNone(lc.card.address, SpacedText)),
        ("phone", TextOrNone(lc.card.phone, StrippedText)),
        ("image_url", Some(image)),
        ("link", Some(link))])
  }

  /** The hours loop, from a row and the items still to add: `row[day] = hours` for each. */
  function AddHours(row: Row, items: seq<HoursItem>): (r: Result<Row>)
    ensures r.Err? <==> exists i | 0 <= i < |items| :: items[i].labelSpan.None?
    ensures r.Err? ==> r.error == AttributeError
    decreases |items|
  {
    if items == [] then Ok(row)
    else
      var day :- DayLabel(items[0]);
      var r := AddHours(Put(row, day, Some(SlotText(items[0]))), items[1..]);
      assert (exists i | 0 <= i < |items| :: items[i].labelSpan.None?) <==>
        exists i | 0 <= i < |items[1..]| :: items[1..][i].labelSpan.None? by {
        assert items[0].labelSpan.Some?;
        assert forall i | 1 <= i < |items| :: items[i] == items[1..][i - 1];
      }
      r
  }

  /** A card's row: the fixed columns, then one column per hours label. */
  function CardRow(lc: LocationCard): (r: Result<Row>)
    ensures r.Err? <==> CardBase(lc).Err? || exists i | 0 <= i < |lc.card.hours| :: lc.card.hours[i].labelSpan.None?
  {
    var base :- CardBase(lc);
    AddHours(base, lc.card.hours)
  }

  /**
   * The error a card raises follows the order in which its row is built: a missing `img`
   * (`TypeError`) or `src` (`KeyError`) first, then a missing call-to-action block
   * (`AttributeError`), `a` (`TypeError`) or `href` (`KeyError`), then an hours item
   * without a label (`AttributeError`). A card with all of them yields a row.
   */
  lemma CardRowErrors(lc: LocationCard)
    ensures var c := lc.card; c.img.None? ==> CardRow(lc) == Err(TypeError)
    ensures var c := lc.card; c.img.Some? && c.img.value.src.None? ==> CardRow(lc) == Err(KeyError)
    ensures var c := lc.card; ImageUrl(c).Ok? && c.cta.None? ==> CardRow(lc) == Err(AttributeError)
    ensures var c := lc.card; ImageUrl(c).Ok? && c.cta.Some? && c.cta.value.link.None? ==> CardRow(lc) == Err(TypeError)
    ensures var c := lc.card; ImageUrl(c).Ok? && c.cta.Some? && c.cta.value.link.Some? && c.cta.value.link.value.href.None? ==>
      CardRow(lc) == Err(KeyError)
    ensures var c := lc.card; ImageUrl(c).Ok? && LinkUrl(c).Ok? && (exists i | 0 <= i < |c.hours| :: c.hours[i].labelSpan.None?) ==>
      CardRow(lc) == Err(AttributeError)
    ensures var c := lc.card; CardRow(lc).Ok? <==>
      c.img.Some? && c.img.value.src.Some? && c.cta.Some? && c.cta.value.link.Some? && c.cta.value.link.value.href.Some?
      && forall i | 0 <= i < |c.hours| :: c.hours[i].labelSpan.Some?
  {
    var c := lc.card;
    if ImageUrl(c).Err? {
      assert CardRow(lc) == Err(ImageUrl(c).error);
    } else if LinkUrl(c).Err? {
      assert CardRow(lc) == Err(LinkUrl(c).error);
    } else {
      assert CardRow(lc) == AddHours(CardBase(lc).value, c.hours);
    }
  }

  /** The cards that yield a row: all but the sentinel, in order. */
  function Kept(cards: seq<LocationCard>): (r: seq<LocationCard>)
    ensures |r| <= |cards|
    ensures forall k | 0 <= k < |r| :: r[k] in cards && r[k].branchName != Sentinel
    ensures forall k | 0 <= k < |cards| && cards[k].branchName != Sentinel :: cards[k] in r
    decreases |cards|
  {
    if cards == [] then []
    else
      var init := cards[..|cards| - 1];
      var last := cards[|cards| - 1];
      assert forall k | 0 <= k < |init| :: init[k] == cards[k];
      if last.branchName == Sentinel then Kept(init) else Kept(init) + [last]
  }

  /** Filtering keeps the order of the cards: the kept cards of two runs are those of each, one after the other. */
  lemma {:induction false} KeptAppend(a: seq<LocationCard>, b: seq<LocationCard>)
    ensures Kept(a + b) == Kept(a) + Kept(b)
    decreases |b|
  {
    if b != [] {
      var init := b[..|b| - 1];
      assert (a + b)[..|a + b| - 1] == a + init;
      KeptAppend(a, init);
    } else {
      assert a + b == a;
    }
  }

  /** Without the sentinel every card is kept, in order. */
  lemma {:induction false} KeptNoSentinel(cards: seq<LocationCard>)
    requires forall k | 0 <= k < |cards| :: cards[k].branchName != Sentinel
    ensures Kept(cards) == cards
    decreases |cards|
  {
    if cards != [] {
      var init := cards[..|cards| - 1];
      KeptNoSentinel(init);
      assert init + [cards[|cards| - 1]] == cards;
    }
  }

  /** The table of the response: one row per card but the sentinel, in order, or the first error. */
  function ProcessCards(cards: seq<LocationCard>): Result<seq<Row>> {
    Collect(Kept(cards), CardRow)
  }

  /** Adding hours keeps the columns of a row distinct: it is a dict. */
  lemma {:induction false} AddHoursDistinct(row: Row, items: seq<HoursItem>)
    requires DistinctKeys(row) && AddHours(row, items).Ok?
    ensures DistinctKeys(AddHours(row, items).value)
    decreases |items|
  {
    if items != [] {
      var day := DayLabel(items[0]).value;
      var next := Put(row, day, Some(SlotText(items[0])));
      PutDistinct(row, day, Some(SlotText(items[0])));
      AddHoursDistinct(next, items[1..]);
    }
  }

  /** A column no hours label names keeps its cell. */
  lemma {:induction false} AddHoursKeeps(row: Row, items: seq<HoursItem>, column: string)
    requires AddHours(row, items).Ok?
    requires forall i | 0 <= i < |items| :: DayLabel(items[i]) != Ok(column)
    ensures Get(AddHours(row, items).value, column) == Get(row, column)
    decreases |items|
  {
    if items != [] {
      var day := DayLabel(items[0]).value;
      PutGet(row, day, Some(SlotText(items[0])));
      assert forall i | 0 <= i < |items[1..]| :: items[1..][i] == items[i + 1];
      AddHoursKeeps(Put(row, day, Some(SlotText(items[0]))), items[1..], column);
    }
  }

  /** A day's cell is the slots of the last item with that label: a repeated day overwrites. */
  lemma {:induction false} AddHoursLastWins(row: Row, items: seq<HoursItem>, i: nat)
    requires AddHours(row, items).Ok? && i < |items|
    requires forall j | i < j < |items| :: DayLabel(items[j]) != DayLabel(items[i])
    ensures Get(AddHours(row, items).value, DayLabel(items[i]).value) == Some(Some(SlotText(items[i])))
    decreases |items|
  {
    var day := DayLabel(items[0]).value;
    var next := Put(row, day, Some(SlotText(items[0])));
    PutGet(row, day, Some(SlotText(items[0])));
    assert forall j | 0 <= j < |items[1..]| :: items[1..][j] == items[j + 1];
    if i == 0 {
      AddHoursKeeps(next, items[1..], day);
    } else {
      AddHoursLastWins(next, items[1..], i - 1);
    }
  }

  /** The column names of a row. */
  function Columns(row: Row): set<string> {
    set j | 0 <= j < |row| :: row[j].0
  }

  /** The days the labels of the hours items name; an item without a label names none. */
  function Days(items: seq<HoursItem>): set<string> {
    set i | 0 <= i < |items| && DayLabel(items[i]).Ok? :: DayLabel(items[i]).value
  }

  /** Every column after the hours loop was a column before it or is the day of one of the items. */
  lemma {:induction false} AddHoursColumns(row: Row, items: seq<HoursItem>)
    requires AddHours(row, items).Ok?
    ensures Columns(AddHours(row, items).value) <= Columns(row) + Days(items)
    decreases |items|
  {
    if items != [] {
      var day := DayLabel(items[0]).value;
      var next := Put(row, day, Some(SlotText(items[0])));
      PutAppends(row, day, Some(SlotText(items[0])));
      AddHoursColumns(next, items[1..]);
      assert Columns(next) <= Columns(row) + {day} by {
        forall c | c in Columns(next) ensures c in Columns(row) + {day} {
          var j :| 0 <= j < |next| && next[j].0 == c;
          if j < |row| {
            assert row[j].0 == c;
          }
        }
      }
      assert Days(items) == {day} + Days(items[1..]) by {
        forall i | 0 <= i < |items[1..]| ensures items[1..][i] == items[i + 1] {}
        forall d | d in Days(items) ensures d in {day} + Days(items[1..]) {
          var i :| 0 <= i < |items| && DayLabel(items[i]).Ok? && DayLabel(items[i]).value == d;
          if i > 0 {
            assert items[1..][i - 1] == items[i];
          }
        }
      }
    }
  }

  /**
   * The fixed cells of a card's base row: its branch name, the address's stripped strings
   * joined by spaces, the phone's stripped text (null when the block is missing),
   * `root_url + src` and `root_url + href`.
   */
  lemma CardBaseCells(lc: LocationCard)
    requires CardBase(lc).Ok?
    ensures var base := CardBase(lc).value;
      Get(base, "branch_name") == Some(Some(lc.branchName))
      && Get(base, "address") == Some(TextOrNone(lc.card.address, SpacedText))
      && Get(base, "phone") == Some(TextOrNone(lc.card.phone, StrippedText))
      && Get(base, "image_url") == Some(Some(RootUrl + lc.card.img.value.src.value))
      && Get(base, "link") == Some(Some(RootUrl + lc.card.cta.value.link.value.href.value))
  {
    var base := CardBase(lc).value;
    BaseDistinct(lc);
    GetAt(base, 0);
    GetAt(base, 1);
    GetAt(base, 2);
    GetAt(base, 3);
    GetAt(base, 4);
  }

  /** The columns of a base row are the fixed columns, in order, and so are distinct. */
  lemma BaseDistinct(lc: LocationCard)
    requires CardBase(lc).Ok?
    ensures |CardBase(lc).value| == |FixedColumns|
    ensures forall j | 0 <= j < |FixedColumns| :: CardBase(lc).value[j].0 == FixedColumns[j]
    ensures DistinctKeys(CardBase(lc).value)
  {
    var base := CardBase(lc).value;
    forall i, j | 0 <= i < j < |base| ensures base[i].0 != base[j].0 {
      assert base[i].0 == FixedColumns[i] && base[j].0 == FixedColumns[j];
    }
  }

  /** A fixed cell keeps its value in the finished row unless an hours label names its column. */
  lemma CardRowFixed(lc: LocationCard, column: string)
    requires CardRow(lc).Ok? && column in FixedColumns
    requires forall i | 0 <= i < |lc.card.hours| :: DayLabel(lc.card.hours[i]) != Ok(column)
    ensures Get(CardRow(lc).value, column) == Get(CardBase(lc).value, column)
  {
    AddHoursKeeps(CardBase(lc).value, lc.card.hours, column);
  }

  /** The columns of a card's row are distinct, and every one is a fixed column or a colon-free day. */
  lemma CardRowColumns(lc: LocationCard)
    requires CardRow(lc).Ok?
    ensures DistinctKeys(CardRow(lc).value)
    ensures forall c | c in Columns(CardRow(lc).value) :: c in FixedColumns || ':' !in c
  {
    var base := CardBase(lc).value;
    var r := AddHours(base, lc.card.hours).value;
    assert CardRow(lc).value == r;
    BaseDistinct(lc);
    AddHoursDistinct(base, lc.card.hours);
    AddHoursColumns(base, lc.card.hours);
    forall c | c in Columns(r) ensures c in FixedColumns || ':' !in c {
      if c in Columns(base) {
        var j :| 0 <= j < |base| && base[j].0 == c;
      } else {
        var i :| 0 <= i < |lc.card.hours| && DayLabel(lc.card.hours[i]).Ok? && DayLabel(lc.card.hours[i]).value == c;
      }
    }
  }

  /**
   * The table has one row per card but the sentinel, in order, and each row carries its
   * card's branch name unless one of the card's hours labels is "branch_name".
   */
  lemma ProcessCardsBranches(cards: seq<LocationCard>)
    requires ProcessCards(cards).Ok?
    ensures var t := ProcessCards(cards).value; var kept := Kept(cards);
      |t| == |kept| && forall k | 0 <= k < |t| ::
        (forall i | 0 <= i < |kept[k].card.hours| :: DayLabel(kept[k].card.hours[i]) != Ok("branch_name"))
        ==> Get(t[k], "branch_name") == Some(Some(kept[k].branchName))
  {
    var t := ProcessCards(cards).value;
    var kept := Kept(cards);
    forall k | 0 <= k < |t| && (forall i | 0 <= i < |kept[k].card.hours| :: DayLabel(kept[k].card.hours[i]) != Ok("branch_name"))
      ensures Get(t[k], "branch_name") == Some(Some(kept[k].branchName))
    {
      assert t[k] == CardRow(kept[k]).value;
      CardRowFixed(kept[k], "branch_name");
      CardBaseCells(kept[k]);
    }
  }

  /** The building of one card's row, as the loop body assigns its cells. */
  method BuildRow(lc: LocationCard) returns (r: Result<Row>)
    ensures r == CardRow(lc)
  {
    var image := ImageUrl(lc.card);
    if image.Err? {
      return Err(image.error);
    }
    var link := LinkUrl(lc.card);
    if link.Err? {
      return Err(link.error);
    }
    var row: Row := [("branch_name", Some(lc.branchName)),
      ("address", TextOrNone(lc.card.address, SpacedText)),
      ("phone", TextOrNone(lc.card.phone, StrippedText)),
      ("image_url", Some(image.value)),
      ("link", Some(link.value))];
    assert CardBase(lc) == Ok(row);
    var items := lc.card.hours;
    var n := 0;
    while n < |items|
      invariant 0 <= n <= |items|
      invariant AddHours(row, items[n..]) == CardRow(lc)
    {
      var day := DayLabel(items[n]);
      assert items[n..][0] == items[n];
      if day.Err? {
        return Err(day.error);
      }
      assert items[n..][1..] == items[n + 1..];
      row := Put(row, day.value, Some(SlotText(items[n])));
      n := n + 1;
    }
    return Ok(row);
  }

  /** The scraper object: the stored response it reads, and the table it builds. */
  class QueensPl {
    const rootUrl: string
    var response: seq<LocationCard>
    var df: seq<Row>

    constructor ()
      ensures rootUrl == RootUrl && response == [] && df == []
    {
      rootUrl := RootUrl;
      response := [];
      df := [];
    }

    /**
     * Reads the stored `locationCards` (the parameter) and builds the table; a card that
     * raises leaves the previous table in place.
     */
    method ProcessResponse(stored: seq<LocationCard>) returns (err: Option<PyError>)
      modifies this
      ensures response == stored
      ensures match ProcessCards(stored)
        case Ok(rows) => err.None? && df == rows
        case Err(e) => err == Some(e) && df == old(df)
    {
      response := stored;
      var table := BuildTable(response);
      match table {
        case Ok(rows) =>
          df := rows;
          err := None;
        case Err(e) =>
          err := Some(e);
      }
    }
  }

  /** The loop over the location cards: the rows in order, or the error of the first card that raises. */
  method BuildTable(cards: seq<LocationCard>) returns (r: Result<seq<Row>>)
    ensures r == ProcessCards(cards)
  {
    var rows: seq<Row> := [];
    var n := 0;
    while n < |cards|
      invariant 0 <= n <= |cards|
      invariant ProcessCards(cards[..n]) == Ok(rows)
    {
      var location := cards[n];
      KeptStep(cards, n);
      CollectSnoc(Kept(cards[..n]), location, CardRow);
      if location.branchName != Sentinel {
        var row := BuildRow(location);
        if row.Err? {
          KeptStopsAt(cards, n);
          return Err(row.error);
        }
        rows := rows + [row.value];
      }
      n := n + 1;
    }
    assert cards[..n] == cards;
    return Ok(rows);
  }

  /** The kept cards of one more card. */
  lemma KeptStep(cards: seq<LocationCard>, n: nat)
    requires n < |cards|
    ensures Kept(cards[..n + 1]) == if cards[n].branchName == Sentinel then Kept(cards[..n]) else Kept(cards[..n]) + [cards[n]]
  {
    assert cards[..n + 1][..n] == cards[..n];
  }

  /** A card that raises decides the table, whatever cards follow it. */
  lemma {:induction false} KeptStopsAt(cards: seq<LocationCard>, n: nat)
    requires n < |cards| && ProcessCards(cards[..n + 1]).Err?
    ensures ProcessCards(cards) == ProcessCards(cards[..n + 1])
    decreases |cards|
  {
    if n + 1 < |cards| {
      var init := cards[..|cards| - 1];
      assert init[..n + 1] == cards[..n + 1];
      KeptStopsAt(init, n);
      var k := Kept(init);
      assert Kept(cards) == k || Kept(cards) == k + [cards[|cards| - 1]];
      assert (k + [cards[|cards| - 1]])[..|k|] == k;
    } else {
      assert cards[..n + 1] == cards;
    }
  }
}
