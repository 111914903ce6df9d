# Five boroughs libraries: record normalisation and joins

This project models the part of the NYPL and Queens Public Library scrapers that turns
scraped pages and API payloads into tables.

NYPL (class `NYPL`):
- The list of branches on the NYPL locations page becomes one record per `li`: name, url, address, zip, phone, accessibility and map link. Each record is then re-keyed by `str(name) + " " + str(zip)`.
- That table is joined one to one with the locations of the NYPL API, keyed by `str(name) + " " + str(postal_code)`.
- Each branch page is classified by the header that shows (Regular Hours, Temporarily Closed, Upcoming Hours or a failure) and read into a day-to-hours dict.
- Those dicts are written, id by id, into the seven weekday columns of the joined table, in place.

NYPL (the script `get_libraries_nypl.py`):
- It builds the same tables, with today's hours added to each scraped row, and merges them `name` against `Name`.

Queens (class `QueensPL`):
- Every location card except the `aaQPLAnywhere` sentinel becomes one row: branch name, address, phone, image url, link, and one column per opening-hours label.

Pages, DOM elements and API payloads are abstract inputs:
- a list item holds its optional heading link, address and phone blocks and its `div.chakra-stack` blocks;
- a branch page is the header the browser found and the tables beside it;
- a Queens card holds its optional blocks and its hours items.

Element text is a sequence of text nodes, so BeautifulSoup's `.text`, `.stripped_strings` and `.get_text(strip=True)` differ as they do in the library. Whitespace is exactly the set of characters for which Python's `str.isspace()` holds.

Every Python exception the code raises on the modelled inputs is an `Err` of a `Result` (the exceptions listed under "## Left out" are not modelled):
- `IndexError` from `split()[-1]`;
- `KeyError` from a missing attribute, dict key or DataFrame column;
- `TypeError` from `str + None` and `None[...]`;
- `AttributeError` from `None.find`;
- `MergeError` from `validate="one_to_one"`.

Five of the methods that change an `NYPL` object are methods of the class `NyplLibrary.Nypl`: storing the list page, processing it, merging, scraping the hours and writing them. The other two, `store_response` (which sets `self.response`) and `load_data` (which sets `self.df`), are left out with HTTP and file I/O. Each is proved against a function of its inputs and its old state. `process_active_hours` writes through `self.df`, which is an alias of `self.libraries`, so it is a method over the `array` that both fields point to.

Modules and files:

| module | file | what it holds |
|---|---|---|
| `Wrappers` | wrappers.dfy | Option, Result, and the loop that stops at the first raising element |
| `Text` | text.dfy | Python strings and BeautifulSoup text |
| `Dicts` | dicts.dfy | Python dicts |
| `Records` | records.dfy | row types and the join key |
| `Join` | join.dfy | the pandas merge |
| `BranchList` | listing.dfy | list-item extraction |
| `Hours` | hours.dfy | branch-page hours |
| `ActiveHours` | active_hours.dfy | writing hours into the table |
| `NyplLibrary` | nypl.dfy | the NYPL class |
| `NyplScript` | nypl_script.dfy | the NYPL script |
| `Queens` | queens.dfy | the Queens class |

A one-to-one merge might be expected to reject a branch that appears in only one of the two tables. The code merges with pandas' default inner join, which silently drops such rows. The model follows the code: `Join.InnerJoin` drops unmatched rows on both sides, and only a repeated key on either side is a `MergeError`.

## Model

| member | source | states |
|---|---|---|
| Wrappers.Collect | nypl/__init__.py:82-115 | a loop appending `f(x)` for each element succeeds exactly when no element raises, and then holds one result per element, in order |
| Wrappers.CollectSnoc | nypl/__init__.py:82-115 | one more element leaves an earlier error in place, raises its own error, or appends its result |
| Wrappers.CollectStopsAt | nypl/__init__.py:82-115 | the first element that raises decides the outcome, whatever follows it |
| Text.Strip | nypl/__init__.py:87 | `strip()` has no whitespace at either end, is empty exactly when the text is all whitespace, and is the text from its first to its last non-whitespace character |
| Text.StripTrimmed | nypl/__init__.py:91-92 | stripping an already stripped text changes nothing |
| Text.SplitFrom | nypl/__init__.py:92 | the words found from an index on are non-empty and whitespace-free, and there are none exactly when only whitespace remains |
| Text.Split | nypl/__init__.py:92 | `split()` yields non-empty whitespace-free words, and none exactly when the text is all whitespace |
| Text.SplitFromLast | nypl/__init__.py:92 | the last word found from an index on is the non-whitespace run that ends where the trailing whitespace begins |
| Text.SplitLastRun | nypl/__init__.py:92 | for a stripped text, the last element of `split()` is the non-whitespace run at its end |
| Text.SplitLast | nypl/__init__.py:92 | for a stripped text, `split()[-1]` is its last word: a whitespace-free suffix preceded by whitespace or by nothing |
| Text.LastWordAfterSpace | nypl/__init__.py:118 | a whitespace-free tail after whitespace is the last element of `split()` |
| Text.BackWordRun | nypl/__init__.py:118 | a whitespace-free run that follows whitespace is found whole when scanning back from its end |
| Text.LastWordUnique | nypl/__init__.py:92 | a stripped text has only one last word |
| Text.JoinTrimmed | queenspl/__init__.py:44 | joining non-empty stripped parts yields no whitespace at either end, and a non-empty text when there are parts |
| Text.Remove | queenspl/__init__.py:60 | `replace(':', '')` leaves no colon and keeps every other character as often as before; a colon-free text is unchanged; a one-character text loses its character exactly when it is the colon |
| Text.RemoveAppend | queenspl/__init__.py:60 | `replace(':', '')` of a concatenation is the concatenation of the two replacements, so with the one-character case the result is the text with its colons deleted, in order |
| Text.ConcatTrimmed | queenspl/__init__.py:47 | concatenating non-empty stripped parts yields no whitespace at either end |
| Text.ConcatAppend | queenspl/__init__.py:47 | `''.join` of two lists of parts is the two joins concatenated |
| Text.JoinAppend | queenspl/__init__.py:62 | `sep.join` of two non-empty lists of parts is the two joins with `sep` between them |
| Text.TextStripped | nypl/__init__.py:91 | `div.text.strip()` has no whitespace at either end, and is empty exactly when the element's text is all whitespace |
| Text.TextOrNone | nypl/__init__.py:91 | `text(div) if div else None` is present exactly when the block is |
| Text.StrippedStrings | queenspl/__init__.py:44 | `.stripped_strings` yields at most one non-empty stripped string per text node; a single node yields its strip, or nothing when it is blank |
| Text.StrippedStringsAppend | queenspl/__init__.py:44 | the stripped strings of two runs of text nodes are those of the first followed by those of the second, which with the one-node case fixes every value |
| Text.StrippedStringsNone | queenspl/__init__.py:44 | no string survives exactly when every text node is blank |
| Text.StrippedText | queenspl/__init__.py:47 | `.get_text(strip=True)` has no whitespace at either end, and of a single text node is its strip |
| Text.StrippedTextAppend | queenspl/__init__.py:47 | `.get_text(strip=True)` of two runs of text nodes is the first's followed by the second's |
| Text.SpacedText | queenspl/__init__.py:44 | `' '.join(stripped_strings)` has no whitespace at either end, is empty exactly when every text node is blank, and of a single text node is its strip |
| Text.SpacedTextAppend | queenspl/__init__.py:44 | `' '.join(stripped_strings)` of two runs of text nodes is the two texts with one space between them, or only the non-empty one |
| Dicts.AssignAllKeys | nypl/__init__.py:151-156 | a run of `d[k] = v` adds exactly the assigned keys |
| Dicts.AssignAllLastWins | nypl/__init__.py:151-156 | a key holds the value of its last assignment |
| Dicts.AssignAllOthers | nypl/__init__.py:151-156 | a key never assigned keeps its entry, or its absence |
| Dicts.AssignAllCons | nypl/__init__.py:170-175 | the first assignment can be made first and the rest after it |
| Dicts.Get | queenspl/__init__.py:64 | a lookup finds nothing exactly when no entry has the key, and otherwise finds the value of an entry with that key |
| Dicts.Put | queenspl/__init__.py:64 | `d[k] = v` keeps every existing key in its position, and grows the dict by one exactly when the key is new |
| Dicts.PutGet | queenspl/__init__.py:64 | after `d[k] = v`, `k` maps to `v` and every other key maps to what it did before |
| Dicts.PutAppends | queenspl/__init__.py:64 | an entry that `d[k] = v` appends is under `k` |
| Dicts.PutDistinct | queenspl/__init__.py:64 | `d[k] = v` keeps the keys of a dict unique |
| Dicts.GetAt | queenspl/__init__.py:64 | in a dict, looking up an entry's key finds that entry's value |
| Dicts.DistinctTail | nypl/__init__.py:185 | the entries of a dict after its first form a dict without the first key that agrees with it on every other key |
| Records.JoinKeyEndsWithZip | nypl/__init__.py:118 | the last word of `str(name) + " " + str(zip)` is `str(zip)` for any one-word zip or a missing one |
| Records.KeyLocations | nypl/__init__.py:123-124 | the API table is re-keyed row for row by name and postal code, every other field unchanged; no locations leave no "name" column, a `KeyError` |
| Records.KeyListings | nypl/__init__.py:117-118 | the scraped table is re-keyed row for row by name and zip, every other field unchanged; an empty table raises `KeyError` |
| Join.Partner | nypl/__init__.py:125 | the partner of a key is missing exactly when no row has that key, and otherwise is a row with that key |
| Join.PartnerUnique | nypl/__init__.py:125 | with unique keys, the partner of a row's key is that row |
| Join.InnerJoin | nypl/__init__.py:125 | the join is no longer than the left table and pairs left and right rows of equal keys only |
| Join.MergeOneToOne | nypl/__init__.py:125 | `validate="one_to_one"` fails with `MergeError` exactly when a key repeats on either side; otherwise the merge holds exactly the pairs of a left row and a right row with equal keys |
| Join.InnerJoinMembers | nypl/__init__.py:125 | when the right keys are unique, a pair is in the inner join exactly when it joins a left row and a right row of equal keys |
| Join.JoinKeepsMatched | nypl/__init__.py:125 | every left row whose key a right row shares is in the join, paired with that row |
| Join.JoinKeysUnique | nypl/__init__.py:125 | the merge never repeats a left row's key |
| Join.UniqueProject | nypl/get_libraries_nypl.py:138 | two tables that read the same keys row for row have unique keys together |
| Join.PartnerProject | nypl/get_libraries_nypl.py:138 | a right table with extra columns finds the same partner as the original |
| Join.JoinProject | nypl/get_libraries_nypl.py:138 | joining with a right table with extra columns pairs the same rows, in the same order |
| Join.MergeProject | nypl/get_libraries_nypl.py:138 | the one-to-one merge with extra right columns succeeds exactly when the original does, with the same pairs |
| BranchList.ZipOf | nypl/__init__.py:90-92 | the zip is null without an address block, an `IndexError` exactly when the block is blank, and otherwise the last word of the stripped address |
| BranchList.AccessibilityIsFirst | nypl/__init__.py:97-105 | accessibility is the stripped last text sub-block of the first block that has an icon and a text sub-block |
| BranchList.AccessibilityNone | nypl/__init__.py:97-105 | accessibility is null exactly when no block has both an icon and a text sub-block |
| BranchList.FindAccessibility | nypl/__init__.py:97-105 | the loop with its `break` finds the accessibility the selection rule defines |
| BranchList.Directions | nypl/__init__.py:110 | `find('a', string='Get Directions')` is missing exactly when no anchor's `.string` is "Get Directions", and otherwise is such an anchor of the block |
| BranchList.MapLinkIsFirst | nypl/__init__.py:107-114 | the map link is the href of the "Get Directions" anchor of the first block that has one, or `KeyError` when that anchor has no href |
| BranchList.MapLinkNone | nypl/__init__.py:107-114 | the map link is null without error exactly when no block has a "Get Directions" anchor |
| BranchList.FindMapLink | nypl/__init__.py:107-114 | the loop with its `break` finds the map link the selection rule defines |
| BranchList.ItemRecord | nypl/__init__.py:83-114 | a record raises exactly when its url, zip or map link raises, and has a zip exactly when the item has an address block |
| BranchList.ExtractItem | nypl/__init__.py:83-114 | the loop body computes the item's record, or the error of the first field that raises |
| BranchList.ItemRecordsStopsAt | nypl/__init__.py:82-115 | the first item that raises aborts the loop with its error |
| BranchList.ReadRecords | nypl/__init__.py:82-115 | the loop over the list items yields the records in document order, or the first item's error |
| BranchList.ListingTable | nypl/__init__.py:117-118 | the keyed table exists exactly when there are items and none raises, with one row per item |
| BranchList.ListingKeysEndWithZip | nypl/__init__.py:92-118 | every row's key ends with that row's zip, or with "None" when there is none |
| Hours.RegularHoursDays | nypl/__init__.py:151-157 | the days of a regular-hours table are the first cells of the rows after the header row |
| Hours.RegularHoursLastRowWins | nypl/__init__.py:151-157 | a day's hours are the second cell of the last row that names it |
| Hours.CollectRegularHours | nypl/__init__.py:151-156 | the loop over the rows builds the regular-hours dict |
| Hours.UpcomingPairsAt | nypl/__init__.py:171-175 | each upcoming-hours row gives its stripped day and stripped hours, in order |
| Hours.UpcomingPairsLength | nypl/__init__.py:171-175 | there is one assignment per upcoming-hours row |
| Hours.UpcomingFromAssigns | nypl/__init__.py:170-175 | the upcoming-hours loop fails exactly when some row misses a cell, and otherwise makes every row's assignment in order |
| Hours.UpcomingHoursFail | nypl/__init__.py:170-176 | the upcoming hours fail exactly when a row misses its day, date or hours cell |
| Hours.UpcomingHoursLastRowWins | nypl/__init__.py:170-176 | a day's hours are the stripped hours of the last row that names it |
| Hours.UpcomingHoursDays | nypl/__init__.py:170-176 | the days of a complete upcoming-hours table are its stripped day cells |
| Hours.CollectUpcomingHours | nypl/__init__.py:170-176 | the loop builds the upcoming-hours dict, or fails at the first incomplete row |
| Hours.ClosedPage | nypl/__init__.py:159-162 | a temporarily closed branch maps exactly the seven weekdays to "Temporarily Closed", whatever its tables hold |
| Hours.ScrapePage | nypl/__init__.py:147-179 | the `try` block classifies the page by its stripped header and reads it, or fails |
| Hours.VisitPages | nypl/__init__.py:134-179 | the loop records each page's hours under its id and each failing page's url, in row order |
| Hours.ScrapeDistinct | nypl/__init__.py:135-176 | the hours hold at most one entry per id |
| Hours.ScrapeHoursStep | nypl/__init__.py:137-176 | one more row puts its page's hours under its id if the page recorded any, and otherwise leaves the hours alone |
| Hours.ScrapeHoursFromPage | nypl/__init__.py:137-179 | an id has hours only if one of its pages recorded exactly those hours |
| Hours.ScrapeLastRecordedWins | nypl/__init__.py:137-179 | an id keeps the hours of its last page that recorded any; a later failing page does not remove them |
| Hours.ScrapeNoHours | nypl/__init__.py:178-179 | an id none of whose pages recorded hours has no entry |
| Hours.ScrapeFailures | nypl/__init__.py:178-179 | the failures are urls of failing pages, at most one per row, and every failing row's url is among them |
| ActiveHours.WriteColumn | nypl/__init__.py:187 | writing the column in place leaves the table the function describes |
| ActiveHours.ApplyDays | nypl/__init__.py:186-187 | the day loop raises `KeyError` exactly when a day is missing; rows of other ids, other columns, locations and listings are untouched; without error the matching rows get the hours of the seven days |
| ActiveHours.WriteDays | nypl/__init__.py:186-187 | the in-place day loop leaves the table and error the function describes |
| ActiveHours.OutsideStep | nypl/__init__.py:186-187 | writing the first day and then the rest leaves every other column alone |
| ActiveHours.RestrictStep | nypl/__init__.py:186-187 | writing the first day and then the rest writes all of them |
| ActiveHours.ApplyDaysRow | nypl/__init__.py:186-187 | with every day present, a row gets the hours if its id matches and is untouched otherwise |
| ActiveHours.ApplyHours | nypl/__init__.py:185-187 | the outer loop raises `KeyError` exactly when some id's hours lack a weekday, and keeps the table's length |
| ActiveHours.ApplyHoursStep | nypl/__init__.py:185-187 | one entry's days are written, and the loop stops at its error or goes on with the rest |
| ActiveHours.WriteHours | nypl/__init__.py:185-187 | the in-place loops leave the table and error the function describes |
| ActiveHours.ApplyHoursKeeps | nypl/__init__.py:183-187 | whatever the outcome, each row keeps its location, listing and non-weekday columns, and a row whose id has no hours is unchanged |
| ActiveHours.ApplyHoursWrites | nypl/__init__.py:183-187 | when no error occurs, a row whose id has hours gets exactly those hours in its seven weekday columns |
| NyplLibrary.MergedTable | nypl/__init__.py:120-125 | the merge raises `KeyError` when either table is empty, and otherwise raises `MergeError` exactly when a key repeats on either side |
| NyplLibrary.KeyedUnique | nypl/__init__.py:124-125 | re-keyed locations have unique join columns exactly when their join keys are unique |
| NyplLibrary.MergedRows | nypl/__init__.py:120-125 | every joined row pairs a re-keyed location with a scraped row of the same key and no hours, the join is no longer than the API table, and no location name repeats |
| NyplLibrary.MergedKeepsMatched | nypl/__init__.py:120-125 | a location whose key a scraped row shares is in the joined table with that row |
| NyplLibrary.Nypl.constructor | nypl/__init__.py:13-16 | the root url is "https://www.nypl.org/" and no table exists yet |
| NyplLibrary.Nypl.ScrapeUnorderedList | nypl/__init__.py:76 | the list items of the locations page are kept and nothing else changes |
| NyplLibrary.Nypl.ProcessUnorderedList | nypl/__init__.py:79-118 | the listing becomes the keyed table of the items; an item that raises leaves it unchanged, and no items make it empty and raise `KeyError` |
| NyplLibrary.Nypl.MergeLibrariesAndResponse | nypl/__init__.py:120-125 | the joined table replaces the listing's place on success; on error nothing changes |
| NyplLibrary.Nypl.ScrapeActiveHours | nypl/__init__.py:127-181 | the hours and the failed urls are those the scrape of the joined table's pages defines |
| NyplLibrary.Nypl.ProcessActiveHours | nypl/__init__.py:183-187 | `df` aliases the joined table, whose rows become what writing the hours defines, including the partial writes before a `KeyError` |
| NyplScript.JsonTable | nypl/get_libraries_nypl.py:48-53 | on status 200 the locations are keyed row for row by name and postal code, or `KeyError` when there are none; any other status gives no table |
| NyplScript.ClockBlock | nypl/get_libraries_nypl.py:107-111 | the clock block is missing exactly when no block has a clock icon, and is otherwise one that has |
| NyplScript.TodaysHoursFirstOnly | nypl/get_libraries_nypl.py:107-116 | today's hours come from the first clock-icon block only, and are null when it has no hours text |
| NyplScript.TodaysHoursNone | nypl/get_libraries_nypl.py:112-116 | without a clock-icon block there are no hours for today |
| NyplScript.FindTodaysHours | nypl/get_libraries_nypl.py:107-116 | the loop with its `break` finds the hours the selection rule defines |
| NyplScript.HtmlTable | nypl/get_libraries_nypl.py:71-131 | the scraped table exists exactly when the class variant's does, and holds each item's listing and today's hours, row for row |
| NyplScript.HtmlTableOf | nypl/get_libraries_nypl.py:128-131 | the table is assembled from the items' records and today's hours |
| NyplScript.TodaysAll | nypl/get_libraries_nypl.py:76-128 | there is one today's-hours value per item |
| NyplScript.TodaysAllAt | nypl/get_libraries_nypl.py:76-128 | the k-th value is the k-th item's today's hours |
| NyplScript.TodaysAllSnoc | nypl/get_libraries_nypl.py:76-128 | one more item appends its today's hours |
| NyplScript.ReadItems | nypl/get_libraries_nypl.py:76-128 | the loop yields the records in document order, or the first item's error, and beside the records each item's today's hours |
| NyplScript.GetFromHtml | nypl/get_libraries_nypl.py:71-131 | the loop and the re-keying yield the scraped table |
| NyplScript.StoreLibrariesNypl | nypl/get_libraries_nypl.py:133-138 | an empty API table is a `KeyError`; a missing one fails the merge with `AttributeError`; a result pairs rows of equal keys and is no longer than the API table |
| NyplScript.StoreIsMerge | nypl/get_libraries_nypl.py:138 | with API locations and a scraped table, the result is the one-to-one merge of the two |
| NyplScript.ScriptAgreesWithClass | nypl/get_libraries_nypl.py:133-138 | the script's join fails exactly when the class's does, and otherwise pairs the same locations with the same listings in the same order |
| Queens.ImageUrl | queenspl/__init__.py:50-52 | an image url that is built always begins with the Queens root url |
| Queens.LinkUrl | queenspl/__init__.py:54-55 | a link that is built always begins with the Queens root url |
| Queens.CardRowErrors | queenspl/__init__.py:50-64 | a card's error follows the order the row is built in: no `img` is a `TypeError` and no `src` a `KeyError`; then no call-to-action block is an `AttributeError`, no `a` a `TypeError` and no href a `KeyError`; then an hours item without a label is an `AttributeError`; a card with all of them yields a row |
| Queens.DayLabel | queenspl/__init__.py:60 | the day raises `AttributeError` exactly when the label span is missing; otherwise it is the label's `.get_text(strip=True)` with its colons removed, and holds no colon |
| Queens.SlotText | queenspl/__init__.py:61-62 | no slots give the empty string, one slot gives its stripped text, and each further slot adds `" - "` and its stripped text |
| Queens.AddHours | queenspl/__init__.py:59-64 | the hours loop raises `AttributeError` exactly when some item has no label |
| Queens.CardRow | queenspl/__init__.py:37-64 | a card's row raises exactly when its base row raises or some hours item has no label |
| Queens.Kept | queenspl/__init__.py:33-35 | the kept cards are exactly the cards that are not the sentinel |
| Queens.KeptAppend | queenspl/__init__.py:33-35 | filtering keeps the order of the cards |
| Queens.KeptNoSentinel | queenspl/__init__.py:33-35 | without the sentinel every card is kept, in order |
| Queens.AddHoursDistinct | queenspl/__init__.py:59-64 | adding hours keeps the columns of a row distinct |
| Queens.AddHoursKeeps | queenspl/__init__.py:59-64 | a column no hours label names keeps its cell |
| Queens.AddHoursLastWins | queenspl/__init__.py:59-64 | a day's cell holds the slots of the last item with that label |
| Queens.AddHoursColumns | queenspl/__init__.py:59-64 | every column after the hours loop was there before or is the day of an item |
| Queens.CardBaseCells | queenspl/__init__.py:38-55 | the fixed cells are the branch name, the spaced address, the stripped phone, `root_url + src` and `root_url + href`, with a null cell for a missing address or phone block |
| Queens.BaseDistinct | queenspl/__init__.py:37-55 | a base row's columns are the five fixed columns in assignment order, and so are distinct |
| Queens.CardRowFixed | queenspl/__init__.py:37-64 | a fixed cell keeps its value unless an hours label names its column |
| Queens.CardRowColumns | queenspl/__init__.py:37-64 | a row's columns are distinct, and each is a fixed column or a colon-free day |
| Queens.ProcessCardsBranches | queenspl/__init__.py:33-65 | the table has one row per card but the sentinel, in order, each with its card's branch name unless an hours label is "branch_name" |
| Queens.BuildRow | queenspl/__init__.py:37-64 | the loop body builds the card's row, or raises its first error |
| Queens.BuildTable | queenspl/__init__.py:32-65 | the loop over the cards yields the rows of all cards but the sentinel, or the first card's error |
| Queens.KeptStep | queenspl/__init__.py:33-35 | one more card is kept unless it is the sentinel |
| Queens.KeptStopsAt | queenspl/__init__.py:33-65 | a card that raises decides the table, whatever cards follow it |
| Queens.QueensPl.constructor | queenspl/__init__.py:7-10 | the root url is "https://www.queenslibrary.org/" and there is no table yet |
| Queens.QueensPl.ProcessResponse | queenspl/__init__.py:28-67 | the stored cards are kept, and the table becomes their rows; a card that raises leaves the previous table |

## Left out

- Browser driving is not modelled: Selenium, the waits and their timeouts, XPath and CSS lookups, and tabs. What the browser found on a page is an input. A wait that times out is `NoHeader`, and an Upcoming Hours panel that never shows is a missing table.
- HTTP requests, status printing and exception printing are not modelled; an HTTP response is its status and payload. In `QueensPL.store_response` a failed request leaves `self.response` unset.
- File I/O is not modelled: `json.dump`/`json.load`, `to_json`/`read_json`, `store_dataframe`, `load_data` and `get_df`. `read_json` applies pandas type inference, so storing and loading is not a round trip. The stored response is a parameter of the methods that read it.
- pandas column order, merge suffixes and DataFrame dtypes are not modelled. Rows are records or insertion-ordered dicts. The class merge keeps one `name` column, and the script merge keeps `name` and `Name`. When `df.loc[mask, day] = hours` creates a weekday column that does not exist yet, pandas fills the rows outside the mask with NaN; the model leaves those rows without the column.
- BeautifulSoup parsing is not modelled. An element's `.string` is an input beside its text nodes, and the two are not tied together. Each `find` and `find_all` is the sequence of elements it returns, and `find_all` matching nested elements is not captured.
- The Upcoming Hours `date` cell is required but its value is not modelled, because the code reads it and discards it.
- tqdm progress bars, the `headless` flag and the `__main__` entry points are not modelled; none of them changes a result.
- NyplLibrary.Nypl.ScrapeActiveHours: returns `unable_to_scrape`, which the source keeps in a local variable and drops.
- NyplLibrary.Nypl.ScrapeActiveHours: does not model `driver.get(url)` raising for a row without url, which happens outside the `try` and would abort the phase. A missing url is passed to the page input like any other.
- NyplLibrary.Nypl.ProcessUnorderedList: the list and item loops run in value-level helper methods, not on the object's fields. The loops write nothing to the object, and an item that raises escapes before `self.libraries` is assigned, so the object is unchanged, as it is in the source.
- NyplLibrary.Nypl.MergeLibrariesAndResponse: the source has a single `self.libraries` that the merge replaces with the joined table; the model keeps the processed list in `listing` and the joined table in `libraries`, so phases run out of order differ. A second merge joins the response with the already joined table in the source and with the processed list again in the model. Scraping hours after processing the list but before merging raises `KeyError` in the source at `self.libraries[['id', 'url']]`, and in the model visits the pages of the empty joined table.
- A phase called before the phase that sets the fields it reads would raise `AttributeError`. This is not modelled: the constructor gives every field an empty value.
- Missing keys in the JSON payloads are not modelled: `data.refineryAllLocations.locations`, `locationCards`, and a card's `branch_name` or `card`. A payload is its list of locations or cards.
- A Regular Hours cell's text is taken as Selenium renders it (`WebElement.text`). Selenium's whitespace normalisation is not modelled.
