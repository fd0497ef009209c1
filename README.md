# MTG price tracker core in Dafny

This project models the price-reconciliation core of a small Magic: The
Gathering price tracker. It has three parts:

- **Scryfall price resolver** (`mtg_scraper_scryfall.py`):
  - turns card objects from the Scryfall API into price records, with defaults for missing keys;
  - builds the search query;
  - chooses between the direct fetch by card URI and the paginated search;
  - refuses searches with more than 100 results;
  - flattens the records of a whole watch-list into sync records;
  - reads the pipe-delimited watch-list file.
- **Card adder** (`card_adder.py`):
  - parses `Name(SET)NUM` card references;
  - maps the placeholder `_` to "no constraint";
  - appends card lines to the watch-list, skipping a card whose identity prefix (name, set and collector number) was already seen in the run.
- **Sheet updater** (`GSheetUpdater.py`): `PriceUpdater.update_prices` reads the records of a worksheet once. For each price record it then updates the two current-price cells of the first row with the same `name (set) number` key, or appends a new row.

The files:

| file | module | contents |
|---|---|---|
| `wrappers.dfy` | `Wrappers` | `Option` and `Result` |
| `strings.dfy` | `Strings` | Python's `str.find`, `strip`, `split` and `join`, with their laws |
| `scryfall.dfy` | `Scryfall` | the resolver |
| `card_adder.dfy` | `CardAdder` | reference parsing and the watch-list append loop |
| `sheet.dfy` | `SheetSync` | the worksheet and the upsert |

The network is replaced by plain values:

- `Network.fast` is the answer to the direct fetch.
- `Network.search` holds the answers to the search request and to each next-page request, in the order they would be made.
- If the sequence runs out, that stands for a transport failure.
- `raise_for_status` raises exactly for statuses 400 to 599.
- `validators.url` is a predicate given by the caller.

Files are sequences of lines, each line keeping its line end as `readlines` returns it. The worksheet is a `Worksheet` object whose rows the updater changes in place.

Where a reader would expect one behaviour and the code does another, the model follows the code:

- **Search result cap.** A reader would expect a search whose `total_cards` exceeds 100 to reach the caller as an error. In the code, the `RequestException` raised at `mtg_scraper_scryfall.py:114-115` is caught at lines 69-71. The caller therefore gets an empty list (`Scryfall.Resolve`).
- **Blank lines in the watch-list.** A reader would expect blank lines to be skipped. `readlines` keeps the line end, so a blank line is `"\n"`: it is neither empty nor a comment, it has one field, and reading it raises `IndexError` (`Scryfall.BlankLineFails`).
- **Dedup against the existing file.** A reader would expect the watch-list append to skip cards already in the file as well as repeats within the batch (`card_adder.py:64-65`, `86-88`). The code seeds its set with whole existing lines but looks up identity prefixes, so only duplicates within one run are rejected (second row of the Findings table).
- **Duplicate rows in the sheet.** A reader would expect the sheet never to get two rows with the same key. Two records with the same new key in one batch both append a row, because matching uses the snapshot taken at the start (`SheetSync.DuplicateNewRecordAppendsTwice`).
- **A sheet shorter than its header.** A reader would expect a second update with the same record to change nothing. On a sheet with fewer than four rows, `get_all_records(head=4)` (`GSheetUpdater.py:38`) yields no records, and the row `append_row` adds (line 69) lands inside the header block, so every update appends the record again (`SheetSync.ShortSheetAppendsAgain`).

## Model

| member | source | states |
|---|---|---|
| Strings.Find | src/card_adder.py:41-42 | `find` returns -1 exactly when the character is absent; otherwise an index holding it with no earlier occurrence |
| Strings.LeftStripSuffix | src/mtg_scraper_scryfall.py:178 | `lstrip` keeps a suffix that does not start with white space and drops only white space |
| Strings.RightStripPrefix | src/mtg_scraper_scryfall.py:178 | `rstrip` keeps a prefix that does not end with white space and drops only white space |
| Strings.StripIsSlice | src/mtg_scraper_scryfall.py:178 | `strip` returns a slice of its input with no white space at either end and only white space around it |
| Strings.StripPadded | src/mtg_scraper_scryfall.py:178 | `strip` gives back a trimmed string padded with any white space on both sides |
| Strings.JoinSplit | src/mtg_scraper_scryfall.py:178 | joining the pieces of `split` with the separator gives back the line |
| Strings.SplitPieces | src/mtg_scraper_scryfall.py:178 | no piece of `split` contains the separator |
| Strings.SplitJoin | src/mtg_scraper_scryfall.py:178 | `split` of a join gives back the parts when none holds the separator |
| Scryfall.Project | src/mtg_scraper_scryfall.py:88-102 | every field of a price record is the stored value when its key is present. It is the default when the key is absent: `Unknown` for name, set, set name, rarity and uri; `N/A` for the collector number and the five prices |
| Scryfall.Extracted | src/mtg_scraper_scryfall.py:84-106 | exactly one record per card object, in input order |
| Scryfall.ExtractedConcat | src/mtg_scraper_scryfall.py:122-134 | extracting two lists of card objects one after the other gives the records of both, in order |
| Scryfall.ExtractCardPrices | src/mtg_scraper_scryfall.py:74-106 | the append loop returns one projected record per card object, in order |
| Scryfall.SearchQuery | src/mtg_scraper_scryfall.py:48-54 | the query starts with the double-quoted name and ends with ` game:paper`. ` set:X` follows the name exactly when the set code is non-empty. ` cn:N` comes just before ` game:paper` when the number is non-empty. The length is the sum of the parts |
| Scryfall.FastPrices | src/mtg_scraper_scryfall.py:14-21 | the direct fetch gives a non-empty list exactly on status 200, and then the one projected record |
| Scryfall.GetCardPricesFast | src/mtg_scraper_scryfall.py:14-21 | the method returns the direct-fetch result |
| Scryfall.BuildData | src/mtg_scraper_scryfall.py:110-137 | returns nothing when `total_cards` exceeds 100 or a next-page request fails. Otherwise it returns the records of each fetched page in fetch order, stopping when `has_more` is false or `next_page` is missing or empty |
| Scryfall.PagesAllOrNothing | src/mtg_scraper_scryfall.py:114-134 | the search result exists exactly when the count is within the cap and the chain of next-page requests completes. It is then the extraction of all the pages' cards concatenated; never a partial list |
| Scryfall.Resolve | src/mtg_scraper_scryfall.py:25-71 | a valid uri whose fetch yields records returns them and sends no query. Otherwise the built query is sent, and a failed or over-cap search returns the empty list |
| Scryfall.SearchAllOrNothing | src/mtg_scraper_scryfall.py:62-71 | the search path returns either nothing or every record of a complete pagination, in fetch order; and a search within the cap whose pagination completes returns exactly the records of all its pages, in fetch order |
| Scryfall.GetCardPrices | src/mtg_scraper_scryfall.py:25-71 | the method returns what `Resolve` specifies, including the query it sends |
| Scryfall.ToSync | src/mtg_scraper_scryfall.py:207-216 | a sync record carries name, `set_code` from `set`, collector number, the eur/usd/eur_foil/usd_foil prices and uri |
| Scryfall.Synced | src/mtg_scraper_scryfall.py:206-216 | one sync record per price record, in order |
| Scryfall.SleepTime | src/mtg_scraper_scryfall.py:196-197 | a positive requested pause is kept; a non-positive one becomes 0.06; the pause is always positive |
| Scryfall.RefreshedConcat | src/mtg_scraper_scryfall.py:200-216 | refreshing two watch-lists one after the other gives their records one after the other |
| Scryfall.RefreshedSingle | src/mtg_scraper_scryfall.py:203-216 | one card contributes the sync records of its resolution, in order |
| Scryfall.AppendSynced | src/mtg_scraper_scryfall.py:206-216 | the inner loop appends one sync record per price record, in order, after what was already collected |
| Scryfall.UpdateCardsData | src/mtg_scraper_scryfall.py:195-219 | the output is the in-order flattening of every card's sync records, and the pause is the defaulted sleep time |
| Scryfall.ParseLine | src/mtg_scraper_scryfall.py:175-190 | a line is a comment exactly when it is empty or starts with `#`. It is rejected exactly when it is neither and splits into fewer than ten parts |
| Scryfall.LoadCardList | src/mtg_scraper_scryfall.py:167-192 | the reading loop returns what `Loaded` specifies, and nothing where the source raises |
| Scryfall.LoadedAllOrNothing | src/mtg_scraper_scryfall.py:174-190 | reading fails exactly when some non-comment line is short. Otherwise it returns the entry of every non-comment line, in order, with its ten stripped parts as fields |
| Scryfall.BlankLineFails | src/mtg_scraper_scryfall.py:170-178 | a blank line `"\n"` makes the whole read fail |
| CardAdder.ParseString | src/card_adder.py:36-54 | with no `(` the whole input is the name. With `(` but no `)` the parse fails, and only then. `name` holds no `(` and the set part no `)`. When both are present, the parts reassemble into the input exactly when the first `)` comes after the first `(` |
| CardAdder.MisplacedCloseLosesSet | src/card_adder.py:42-48 | on `a)(M)` the parse gives name `a)`, an empty set part and number `(M)`, which do not reassemble into the input |
| CardAdder.ParseStringCorrected | src/card_adder.py:41-50 | with the `)` searched after the `(`, the parse succeeds exactly when such a `)` exists, and every successful parse reassembles into the input |
| CardAdder.Unconstrained | src/card_adder.py:26 | exactly `_` becomes empty, every other value is kept |
| CardAdder.LineRoundTrip | src/card_adder.py:82-85 | a written line read back by the watch-list reader gives the card's ten fields. This holds when no field holds `\|`, a line break, or white space at its ends, and the name does not start with `#` |
| CardAdder.AppendUnique | src/card_adder.py:81-91 | the loop writes the lines of exactly the cards whose identity prefix is not yet seen, adding each prefix at once, and returns the final set |
| CardAdder.KeptDistinct | src/card_adder.py:87-89 | the identity prefixes of the lines written in one run are distinct and none was in the set before |
| CardAdder.SeenAfterGrows | src/card_adder.py:87-91 | the set only grows: it ends as the old set plus the prefixes of the written lines, and holds every card's prefix |
| CardAdder.RejectedWritesNothing | src/card_adder.py:87-91 | a card whose prefix was seen writes nothing and leaves the set unchanged |
| CardAdder.LogCardCollection | src/card_adder.py:63-91 | the append loop runs with the set seeded from the file's whole lines |
| CardAdder.ExistingLineNotRecognised | src/card_adder.py:64-87 | a card whose line is already in the file is written again |
| CardAdder.LogCardCollectionCorrected | src/card_adder.py:63-91 | the append loop runs with the set seeded from the identity prefixes of the file's entries |
| CardAdder.CorrectedNeverDuplicates | src/card_adder.py:81-91 | with that seed, no written line shares a prefix with an entry of the file or with another written line |
| CardAdder.ExistingLineRecognised | src/card_adder.py:63-91 | with that seed, a card whose line is already in the file is not written again, when its fields meet the conditions of `LineRoundTrip` (so the written text is one line of the file) |
| SheetSync.Snapshot | src/GSheetUpdater.py:37-38 | the records are read once: one name per row after the four header rows, in row order, and none when the sheet is shorter than the header |
| SheetSync.KeyIdentifies | src/GSheetUpdater.py:46 | the `name (set) number` match key tells printings apart: equal keys mean equal name, set code and collector number, when no name holds `(` and no set code holds `)` |
| SheetSync.Put | src/GSheetUpdater.py:58-59 | writing a cell sets that column, extends a short row with empty cells, and changes nothing else |
| SheetSync.NewRow | src/GSheetUpdater.py:62-68 | an appended row is the linked key followed by the prices, with start prices equal to current prices |
| SheetSync.FirstMatch | src/GSheetUpdater.py:49-53 | no match exactly when the key is absent; otherwise the first record with that name |
| SheetSync.FindRecord | src/GSheetUpdater.py:49-53 | the scan with early `break` returns the first match |
| SheetSync.Upsert | src/GSheetUpdater.py:40-69 | the row count grows by exactly the number of records unmatched in the snapshot |
| SheetSync.UpsertAppends | src/GSheetUpdater.py:60-69 | the rows after the old ones are the new rows of the unmatched records, in order; no old row is removed |
| SheetSync.UpsertOldRow | src/GSheetUpdater.py:55-59 | an old row is unchanged unless a record matched it. Then only its two current-price cells change, to the prices of the last such record |
| SheetSync.PricedTwice | src/GSheetUpdater.py:58-59 | writing the current prices twice keeps the second write |
| SheetSync.UpsertKeepsNamesAndStartPrices | src/GSheetUpdater.py:55-59 | the name and start-price cells of every row survive |
| SheetSync.UpsertKeepsHeader | src/GSheetUpdater.py:37-38 | the four header rows are never written |
| SheetSync.DuplicateNewRecordAppendsTwice | src/GSheetUpdater.py:38-69 | two identical records absent from the snapshot both append a row |
| SheetSync.SyncTwiceIsStable | src/GSheetUpdater.py:50-69 | on a sheet that has at least the four header rows, running the update twice with the same single record leaves the sheet as the first run left it |
| SheetSync.ShortSheetAppendsAgain | src/GSheetUpdater.py:37-69 | on an empty sheet the snapshot is empty, so a second update with the same record appends its row again |
| SheetSync.Worksheet.constructor | src/GSheetUpdater.py:26 | the worksheet holds the given rows |
| SheetSync.Worksheet.UpdateCell | src/GSheetUpdater.py:58-59 | one cell of one row is written, everything else unchanged |
| SheetSync.Worksheet.AppendRow | src/GSheetUpdater.py:69 | one row is added after the last |
| SheetSync.PriceUpdater.constructor | src/GSheetUpdater.py:5-26 | the updater is bound to the given worksheet |
| SheetSync.PriceUpdater.UpdatePrices | src/GSheetUpdater.py:30-69 | the sheet ends as the upsert of every price record against the snapshot taken at the start |

## Left out

- HTTP requests, JSON decoding and `validators.url`. Fetch and search answers are inputs, and URL validity is a predicate given by the caller.
- JSON `null` values and non-string values in card objects: every field is a string or absent. A `null` price would pass through unchanged in the source.
- An exception from the direct-fetch request itself (`mtg_scraper_scryfall.py:15`), which is outside the `try` and propagates.
- The `print` on a failed search, the `tqdm` progress output and `time.sleep`. Only the chosen pause is returned.
- Opening, reading and appending files. Lines read are an input sequence; lines written are an output sequence.
- A missing watch-list file in `log_card_collection` is the empty sequence of existing lines.
- `date.today()` and the `input()` loop of `log_card_collection`. The date is an input, and the cards its lookups return arrive as one sequence.
- The "already present" message for a rejected card, and the tkinter error dialog `show_error`.
- `validate_cards` calls `get_card_prices` with three arguments against a one-argument signature, and `test_get_card` does the same; neither can run, so only the `_` mapping is modelled. `GSheetUpdater.main` passes tuples where dictionaries are read. `main.py` is not part of this model.
- Authentication and the fixed sheet URL in `PriceUpdater.__init__`. The updater is given its worksheet.
- `get_all_records` turns numeric-looking cells into numbers; the model compares names as text.
- How `append_row` picks the table it appends to: the model appends after the last row.
- How a HYPERLINK formula is evaluated: a link cell displays its title.
- Prices are opaque strings; no numeric value of a price is modelled.
- Text encoding: the watch-list is taken to read back in the UTF-8 it is written in (`card_adder.py:69`). `load_card_list` (`mtg_scraper_scryfall.py:169`) and the seed read (`card_adder.py:64`) use the platform default encoding, so on other platforms non-ASCII fields need not read back (`CardAdder.LineRoundTrip`, `CardAdder.ExistingLineRecognised`).
- The record name is read from the first column (`SheetSync.RowName`), taken to be the "Card Name" column that `record['Card Name']` looks up (`GSheetUpdater.py:51`). The `KeyError` the source raises when that header is missing is not modelled.
- Scryfall.SleepTime: the pause is a `real`, not a Python float. A NaN `sleep_time` is kept by the source, because `nan <= 0` is false, and `time.sleep` then raises; the model has no NaN.
- The URL encoding of the search query and the fixed `unique=prints` request parameter.

## Findings

| source | as written | input that shows it | evidently intended | confidence | as-written member | corrected member |
|---|---|---|---|---|---|---|
| src/card_adder.py:42 | the set part ends at the first `)` of the whole input, even before the `(` | `a)(M)` parses to name `a)`, set part empty, number `(M)`: the set code is lost | the set part ends at the first `)` after the `(` | medium, not executed | CardAdder.MisplacedCloseLosesSet | CardAdder.ParseStringCorrected |
| src/card_adder.py:64-65 | the seen set starts as the file's whole lines, line ends included, but membership is looked up by the identity prefix | a card whose line is already in the file is looked up again: its prefix is not in the set, so the line is written a second time | seed the set with the identity prefixes of the file's lines | high, not executed | CardAdder.ExistingLineNotRecognised | CardAdder.LogCardCollectionCorrected |
