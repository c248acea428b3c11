# deal-finder-bot — a verified model of the price-comparison pipeline

deal-finder-bot is a Discord bot. Its `deal` command takes a game title and searches Steam and Nuuvem (an Epic Games builder exists but its call is commented out). It scrapes each results page into `Game` records and picks a canonical title and image. It then looks that title up in the Steam and Nuuvem lists and replies with two embed fields, one per storefront. Each field shows either "Not found!" or the game's price and discount.

The model covers this pipeline from the parsed results page to the embed:

- `Text` holds the Rust standard-library string operations the pipeline uses: `trim`, `join`, one-character `replace`, `to_lowercase`, `is_numeric` and the ordering of `String`. The whitespace `trim` removes is the full Unicode White_Space set.
- `FormUrlencoded` is the query encoder `byte_serialize(game.as_bytes())`. This is the application/x-www-form-urlencoded byte serializer of the WHATWG URL Standard, section 5.2, applied to the UTF-8 encoding of the query. It comes with its reading side and a round-trip proof.
- `Structs` holds the records `Game`, `GamesVec` and `GameOpt` (`src/structs.rs`). It also holds `Display for GameOpt`, and a proof that the price and discount can be read back from the rendering.
- `Funcs` holds the field helpers of `src/funcs.rs`:
  - `get_element_text` is a method with a loop, proved against `SelectionText`.
  - `get_currency`.
  - `get_attr_src_text` is a method taking a `Select` object, a class that stands for the `&mut` selection iterator.
  - `search_in`.
- `Scraper` holds the three builders of `src/commands/scraper.rs` and `deal`:
  - Each builder's nested container/row loops are methods, proved against a specification function `Collect` parameterised by the builder's row rule.
  - `deal` elects the title and image, does one `search_in` per active site, loops over the entries of a site-to-outcome map in an unspecified order, and sorts the fields by descending site name.

Parsed HTML is abstract:

- an `Element` is its text nodes and its attributes;
- a `Selection` is what one CSS selector matched;
- a `Row` maps each field selector to its matches;
- a `Page` is a sequence of result containers, each a sequence of rows.

The HTTP request and the HTML parser are one parameter, `fetch: string -> Page`. It maps a URL to the page the site's selectors see there.

## Model

| member | source | states |
|---|---|---|
| Text.IsWhitespace | src/funcs.rs:12 | `char::is_whitespace`, the test `trim` uses: exactly the 25 code points of the Unicode White_Space property |
| Text.TrimStartSpec | src/funcs.rs:12 | `trim_start` leaves a suffix of the input, everything it drops is whitespace, and the result does not start with whitespace |
| Text.TrimEndSpec | src/funcs.rs:12 | `trim_end` leaves a prefix of the input, everything it drops is whitespace, and the result does not end with whitespace |
| Text.Trim | src/funcs.rs:12 | `str::trim` as `trim_end` after `trim_start`; what it returns is stated by `TrimSpec` |
| Text.TrimSpec | src/funcs.rs:12 | `trim` returns the slice of the input after its leading whitespace, only whitespace follows it, and it neither starts nor ends with whitespace |
| Text.Join | src/funcs.rs:12 | joining a single text node gives that node unchanged, with no separator |
| Text.JoinLength | src/funcs.rs:12 | a join is as long as the sum of its parts' lengths plus one separator between each pair of neighbours; joining nothing gives "" |
| Text.JoinSnoc | src/funcs.rs:12 | joining one more text node appends the separator and then that node, so the nodes appear in order with the separator between neighbours |
| Text.ReplaceChar | src/funcs.rs:12 | `replace('\n', " ")` keeps the length, turns every line break into a space and leaves every other character where it was |
| Text.LowerChar | src/funcs.rs:39 | an upper-case ASCII letter maps to its lower-case letter; every other character is unchanged |
| Text.Lowercase | src/funcs.rs:39 | `to_lowercase` keeps the length and lowercases character by character |
| Text.EqualIgnoringCase | src/funcs.rs:39 | two names match when they are equal once both are lowercased |
| Text.StrLess | src/commands/scraper.rs:273 | `String::cmp` as a strict order: lexicographic over code points, a proper prefix sorting first |
| Text.StrLessIrreflexive | src/commands/scraper.rs:273 | no site name sorts before itself |
| Text.StrLessAsymmetric | src/commands/scraper.rs:273 | two names never each sort before the other |
| Text.StrLessTotal | src/commands/scraper.rs:273 | of two different names, one sorts before the other |
| FormUrlencoded.CharUtf8 | src/commands/scraper.rs:47 | a character's UTF-8 encoding is 1 to 4 bytes; it is one byte, the code point itself, exactly for ASCII; every continuation byte lies in 0x80..0xBF |
| FormUrlencoded.Utf8 | src/commands/scraper.rs:47 | `as_bytes` gives at least one byte per character |
| FormUrlencoded.Utf8OfAscii | src/commands/scraper.rs:47 | an ASCII query is its own byte sequence |
| FormUrlencoded.SerializeByte | src/commands/scraper.rs:47 | one byte serializes only to unreserved characters, `+` or `%` with upper-case hex digits |
| FormUrlencoded.ByteSerialize | src/commands/scraper.rs:47 | the serialized query holds only those characters and is at least as long as the bytes |
| FormUrlencoded.ByteParseSerialize | src/commands/scraper.rs:47 | parsing the serialization gives back exactly the original bytes, so the encoding loses nothing |
| FormUrlencoded.SerializedHasNoDelimiters | src/commands/scraper.rs:47 | the encoded query never holds `&`, `=`, `#`, `?`, `/` or a space, so it cannot break out of the URL's query parameter |
| FormUrlencoded.EncodeQuery | src/commands/scraper.rs:47 | the encoded query is made of form characters and decodes to the UTF-8 bytes of the query |
| FormUrlencoded.EncodeExample | src/commands/scraper.rs:47 | "a $" encodes as "a+%24" |
| Structs.Game | src/structs.rs:13-21 | the record of one listing: site, name, currency, full price, discounted price, discount and image URL, all kept as display strings |
| Structs.GamesVec | src/structs.rs:24-26 | the records one storefront returned, in document order |
| Structs.GameOpt | src/structs.rs:29-31 | the outcome of one lookup: a record or nothing |
| Structs.ShownPrice | src/structs.rs:37-49 | the price a found game shows: the discounted price when it is non-empty, else the full price |
| Structs.PricePrefix | src/structs.rs:38-47 | the currency in front of the price for the site "Nuuvem", nothing for any other site |
| Structs.Display | src/structs.rs:33-54 | no game renders exactly "Not found!"; a game renders "Price: " + prefix + price + "\nDiscount: " + discount. The price is the discounted price if non-empty, else the full price. The prefix is the currency for the site "Nuuvem" and empty otherwise |
| Structs.ReadDisplay | src/structs.rs:33-54 | when the price text has no line break, the rendering can be read back into "not found" or the exact price and discount; no found game renders as "Not found!" |
| Funcs.Select.Next | src/funcs.rs:27 | advancing the iterator yields the first remaining match and drops it, or yields nothing when none remain |
| Funcs.ElementText | src/funcs.rs:12 | one element's text nodes joined with a space, trimmed, with each line break replaced by a space; its shape is stated by `ElementTextShape` |
| Funcs.SelectionText | src/funcs.rs:11-15 | the element texts of a selection concatenated with nothing between them; `SelectionTextAppend`, `SelectionTextSingle` and `SelectionTextNoNewline` state its properties |
| Funcs.ElementTextShape | src/funcs.rs:12 | one element's text has no line break and no whitespace at either end |
| Funcs.Texts | src/funcs.rs:11-14 | one text per element of the selection, in order: the i-th text is the i-th element's `ElementText` |
| Funcs.Concat | src/funcs.rs:15 | `collect::<String>()`: the pieces in order with nothing between them; `ConcatAppend` states that it splits over any split of the pieces |
| Funcs.ConcatAppend | src/funcs.rs:15 | collecting two runs of pieces gives the first run's text followed by the second's |
| Funcs.TextsAppend | src/funcs.rs:11-14 | the texts of two runs of elements are the first run's texts followed by the second's |
| Funcs.SelectionTextAppend | src/funcs.rs:11-15 | the text of a selection is its elements' texts concatenated with no separator: splitting the selection splits the text at the same place |
| Funcs.SelectionTextSingle | src/funcs.rs:11-15 | a one-element selection gives that element's space-joined, trimmed, line-break-free text |
| Funcs.SelectionTextNoNewline | src/funcs.rs:12-15 | a selection's text never holds a line break |
| Funcs.GetElementText | src/funcs.rs:9-16 | the loop returns the selection's text; an empty selection gives ""; the result has no line break |
| Text.IsNumeric | src/funcs.rs:20 | `char::is_numeric`, limited to the ASCII digits '0' to '9' |
| Funcs.SplitNumeric | src/funcs.rs:20 | `split(char::is_numeric)` yields one piece more than there are digits, at least one, none holding a digit; the first piece is a prefix of the text followed by a digit or the end |
| Funcs.Currency | src/funcs.rs:19-21 | the currency is a prefix of the text, holds no digit, and is followed by a digit unless it is the whole text |
| Funcs.CurrencyOfPrice | src/funcs.rs:20-21 | "R$49,90" gives "R$" |
| Funcs.CurrencyOfEmptyAndBare | src/funcs.rs:20-21 | the empty text gives "" and "49,90", which starts with a digit, gives "" |
| Funcs.CurrencyWithoutDigits | src/funcs.rs:20-21 | a text with no digit is returned whole |
| Funcs.GetCurrency | src/funcs.rs:18-24 | returns the currency of the selection's text |
| Funcs.FirstSrc | src/funcs.rs:26-35 | the `src` of the first matched element, "" when there is no element or it has no `src`; `FirstSrcIgnoresLater` and `FirstSrcMissingOnFirst` state that later elements never count |
| Funcs.FirstSrcIgnoresLater | src/funcs.rs:26-35 | only the first element is consulted: what follows it never changes the result |
| Funcs.FirstSrcMissingOnFirst | src/funcs.rs:29-34 | a first element without `src` gives "", even when a later element has one |
| Funcs.GetAttrSrcText | src/funcs.rs:26-35 | returns the first remaining element's `src` ("" when there is no element or no attribute) and advances the iterator by exactly one element |
| Funcs.Position | src/funcs.rs:38-40 | `position` returns the least index whose name equals the query ignoring case, and returns none exactly when no name matches |
| Funcs.NameMatches | src/funcs.rs:39 | the closure given to `position`: a game's lowercased name equals the lowercased query |
| Funcs.SearchIn | src/funcs.rs:37-48 | `search_in` returns none exactly when no game matches; otherwise it returns the game at the least matching index |
| Funcs.SearchInFound | src/funcs.rs:42-47 | a found game is an unchanged element of the list, and its name matches the query |
| Funcs.SearchInIgnoresCase | src/funcs.rs:39 | "HALF-LIFE" is found under "half-life" |
| Scraper.SteamUrl | src/commands/scraper.rs:45-48 | the Steam URL is the base followed by the encoded query, which decodes to the query's bytes |
| Scraper.EpicUrl | src/commands/scraper.rs:106-110 | the Epic URL is the base, the encoded query, then the fixed sort and count parameters |
| Scraper.NuuvemUrl | src/commands/scraper.rs:171-174 | the Nuuvem URL is the base followed by the encoded query |
| Scraper.Matched | src/commands/scraper.rs:74-79 | `game_row.select(&SELECTOR)`: what one field selector matched inside the row, nothing when the row has no such element |
| Scraper.DiscountOrZero | src/commands/scraper.rs:88 | the discount label is never empty; a scraped discount is kept verbatim |
| Scraper.ListingGame | src/commands/scraper.rs:74-92 | the Steam and Epic row rule: the record a row yields, or none; `ListingKeptIff`, `ListingFields` and `ListingShowsPrice` state what it does |
| Scraper.NuuvemGame | src/commands/scraper.rs:203-220 | the Nuuvem row rule: the record a row yields, or none; `NuuvemKeptIff` and `NuuvemFields` state what it does |
| Scraper.ListingKeptIff | src/commands/scraper.rs:81 | a Steam or Epic row yields a record exactly when its discounted-price or full-price text is non-empty |
| Scraper.ListingFields | src/commands/scraper.rs:74-90 | a Steam or Epic record carries the site, the scraped texts verbatim, "0%" for a missing discount, the currency of the discounted-price cell and the first image's `src` |
| Scraper.ListingCurrencyIgnoresFullPrice | src/commands/scraper.rs:78 | changing the full-price cell never changes a Steam or Epic record's currency |
| Scraper.ListingShowsPrice | src/commands/scraper.rs:81-88 | every Steam or Epic record shows a non-empty price and discount |
| Scraper.NuuvemKeptIff | src/commands/scraper.rs:204-209 | a Nuuvem row yields a record exactly when its integer and decimal price texts together are non-empty |
| Scraper.NuuvemPrice | src/commands/scraper.rs:204 | the Nuuvem price text: the integer-part text followed by the decimal-part text; `NuuvemPriceParts` states it |
| Scraper.NuuvemPriceParts | src/commands/scraper.rs:204 | the Nuuvem price is the integer-part text followed by the decimal-part text |
| Scraper.NuuvemFields | src/commands/scraper.rs:203-218 | with no discount both Nuuvem prices are "R$0" and the discount is "0%"; with one, both prices are the combined price and the discount is verbatim; the discounted price is never empty |
| Scraper.NuuvemNoDiscountRendering | src/commands/scraper.rs:206-216 | an undiscounted Nuuvem record with symbol "R$" renders "Price: R$R$0\nDiscount: 0%" |
| Scraper.ListingReadBack | src/commands/scraper.rs:74-92 | every Steam or Epic record renders into a field from which its shown price and discount read back exactly |
| Scraper.NuuvemReadBack | src/commands/scraper.rs:203-220 | every Nuuvem record renders into a field from which its currency-prefixed price and discount read back exactly |
| Scraper.CollectRows | src/commands/scraper.rs:73-93 | the records of a container's rows, in row order; stated by `CollectRowsLength`, `CollectRowsAppend` and `CollectRowsMembers` |
| Scraper.Collect | src/commands/scraper.rs:68-94 | the records of a page, containers in order and rows in order within each; stated by `CollectLength`, `CollectAppend` and `CollectMembers` |
| Scraper.CollectRowsLength | src/commands/scraper.rs:73-92 | a container never yields more records than it has rows |
| Scraper.CollectLength | src/commands/scraper.rs:68-94 | a builder never yields more records than the page has rows |
| Scraper.CollectRowsAppend | src/commands/scraper.rs:73-93 | rows keep their order: the records of two runs of rows are the first run's, then the second's |
| Scraper.CollectAppend | src/commands/scraper.rs:71-94 | containers keep their order in the same way |
| Scraper.CollectRowsMembers | src/commands/scraper.rs:73-92 | a record is in a container's list exactly when some row of it yields that record |
| Scraper.CollectMembers | src/commands/scraper.rs:71-94 | a record is in a page's list exactly when some row of some container yields it |
| Scraper.CollectAll | src/commands/scraper.rs:71-94 | what holds of every record the row rule yields holds of every record in the list |
| Scraper.BuildersTagAndPrice | src/commands/scraper.rs:81-91 | every record of each builder carries that builder's fixed site name and shows a price |
| Scraper.ReadListingRow | src/commands/scraper.rs:74-92 | the row loop body of the Steam and Epic builders yields exactly the record the row rule gives |
| Scraper.ScrapeListingRows | src/commands/scraper.rs:73-93 | the row loop appends the container's records, in row order, to the list so far |
| Scraper.ScrapeListing | src/commands/scraper.rs:70-94 | the container loop yields the page's records in document order |
| Scraper.GetGameSteam | src/commands/scraper.rs:40-99 | returns the records of the page fetched at the Steam URL, at most one per row |
| Scraper.GetGameEpic | src/commands/scraper.rs:101-164 | returns the records of the page fetched at the Epic URL, at most one per row |
| Scraper.ReadNuuvemRow | src/commands/scraper.rs:203-220 | the row loop body of the Nuuvem builder yields exactly the record the Nuuvem row rule gives |
| Scraper.ScrapeNuuvemRows | src/commands/scraper.rs:201-221 | the row loop appends the container's Nuuvem records, in row order |
| Scraper.ScrapeNuuvem | src/commands/scraper.rs:196-222 | the container loop yields the page's Nuuvem records in document order |
| Scraper.GetGameNuuvem | src/commands/scraper.rs:166-227 | returns the records of the page fetched at the Nuuvem URL, at most one per row |
| Scraper.InsertDesc | src/commands/scraper.rs:273 | inserting a field into a list sorted by descending name keeps it sorted and adds exactly that field |
| Scraper.SortByNameDesc | src/commands/scraper.rs:273 | sorting by `b.0.cmp(&a.0)` yields a permutation of the fields sorted by descending site name |
| Scraper.SortTwo | src/commands/scraper.rs:273 | two fields with different names come out in the same order whichever order they went in |
| Scraper.NuuvemBeforeSteam | src/commands/scraper.rs:237 | "Nuuvem" sorts before "Steam", so Steam's field comes first |
| Scraper.Elect | src/commands/scraper.rs:252-261 | the title and image: Steam's first record's, else Nuuvem's, else the query with no image; `Comparison` states the three cases |
| Scraper.EmbedField | src/commands/scraper.rs:269-271 | one `(String, GameOpt, bool)` field: the site name, the lookup outcome and the inline flag, which is always true |
| Scraper.Embed | src/commands/scraper.rs:277-281 | the embed `deal` sends: the title, the image and the fields |
| Scraper.Comparison | src/commands/scraper.rs:252-273 | the title and image are Steam's first record's, else Nuuvem's, else the query and ""; the fields are exactly Steam's then Nuuvem's `search_in` of the title, sorted by descending name |
| Scraper.SteamFirstRecordShown | src/commands/scraper.rs:255-263 | when Steam found anything, its field shows Steam's first record |
| Scraper.NuuvemFallbackShown | src/commands/scraper.rs:258-264 | when only Nuuvem found anything, Steam's field is empty and Nuuvem's shows its first record |
| Scraper.NothingFoundShown | src/commands/scraper.rs:253-254 | when nothing was found the title is the query, the image is empty and both fields render "Not found!" |
| Scraper.CrossSiteMatchIgnoresCase | src/commands/scraper.rs:263-264 | Nuuvem's "HALF-LIFE" is found under Steam's title "Half-Life" |
| Scraper.MapFields | src/commands/scraper.rs:269-272 | the loop over the map yields one inline field per entry, each key once, in any order |
| Scraper.TwoSiteFields | src/commands/scraper.rs:265-272 | with the Steam and Nuuvem entries inserted, the fields come in one of the two possible orders |
| Scraper.Deal | src/commands/scraper.rs:230-289 | `deal` sends exactly the comparison of the Steam and Nuuvem lists for the query, whatever order the map yields its entries in |

## Left out

- HTTP, HTML parsing and CSS selectors: the request, `Html::parse_document`, `select` and the selector table (`src/commands/scraper.rs:13-38`) are one `fetch` parameter. The selector strings themselves are not modelled.
- Fetch failures: a failed request aborts `deal` through `?`. The model's `fetch` is total, so the error path is not represented.
- Sending the embed, the `content("")` call, timing and `info!` logging: these are chat-platform I/O and instrumentation. `Deal` returns the embed it would send.
- `Lowercase`: only ASCII letters are lowercased, not the full Unicode case mapping of `to_lowercase`. Names that differ only in non-ASCII case are treated as different.
- `SplitNumeric`, `Currency`: `char::is_numeric` is limited to ASCII digits. Other Unicode numeric characters are not treated as separators.
- `SortByNameDesc`: `String` ordering is lexicographic comparison of code points. This gives the same order as Rust's byte-wise UTF-8 comparison. The sort is done on a value, not in place on the vector.
- `Deal`: the HashMap's iteration order is not modelled. Any order is allowed, and the sort makes the result independent of it.
- `Deal`: `get_game_epic` is modelled (`GetGameEpic`) but not called from `Deal`, because its call in `deal` is commented out. The middle entry of `sites` is unused, as in the code.
- `src/main.rs`, `src/commands/ping.rs` and `src/commands/mod.rs`: bot-framework glue and command registration, not part of this model.
