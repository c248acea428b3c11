/**
 * The `deal` command's pipeline: for each storefront, build the search URL,
 * walk the parsed results page container by container and row by row, and
 * turn every row that has a price into a `Game`; then elect the canonical
 * title and image, look that title up in each storefront's list, and order
 * the embed fields by descending site name.
 *
 * The HTTP fetch and the HTML parser are one parameter, `fetch`: it maps a
 * URL to the page the site's selectors see there, as result containers of
 * rows, each row holding what every field selector matched inside it.
 */
module Scraper {
  import opened Wrappers
  import opened Text
  import opened Structs
  import opened Funcs
  import opened FormUrlencoded

  /** The per-row field selectors of the three storefronts. */
  datatype Field =
    | Title | FullPrice | DiscountedPrice | Discount
    | CurrencySymbol | PriceInteger | PriceDecimal | ImgUrl

  /** One game row: what each field selector matched inside it. */
  datatype Row = Row(matches: map<Field, Selection>)

  /** `game_row.select(&SELECTOR)`: the field's matches, none when the row has no such element. */
  function Matched(row: Row, f: Field): Selection {
    if f in row.matches then row.matches[f] else []
  }

  /** The game rows one results container holds, in document order. */
  type Container = seq<Row>

  /** A parsed results page: its results containers, in document order. */
  type Page = seq<Container>

  const STEAM_URL: string := "https://store.steampowered.com/search/?term="
  const EPIC_URL: string := "https://store.epicgames.com/pt-BR/browse?q="
  const EPIC_PARAMS: string := "&sortBy=relevancy&sortDir=DESC&count=40"
  const NUUVEM_URL: string := "https://www.nuuvem.com/br-pt/catalog/page/1/search/"

  const STEAM_SITE: string := "Steam"
  const EPIC_SITE: string := "Epic Games"

  /** The `sites` list of `deal`; the middle entry is never used. */
  const SITES: seq<string> := [STEAM_SITE, EPIC_SITE, NUUVEM_SITE]

  /** Steam's search URL: the base followed by the encoded query, which reads back as the query's bytes. */
  function SteamUrl(game: string): (url: string)
    ensures |STEAM_URL| <= |url| && url[..|STEAM_URL|] == STEAM_URL
    ensures ByteParse(url[|STEAM_URL|..]) == Some(Utf8(game))
    ensures forall i :: |STEAM_URL| <= i < |url| ==> FormChar(url[i])
  {
    var url := STEAM_URL + EncodeQuery(game);
    assert url[|STEAM_URL|..] == EncodeQuery(game);
    url
  }

  /** Epic's search URL: base, encoded query, then the fixed sort and count parameters. */
  function EpicUrl(game: string): (url: string)
    ensures |EPIC_URL| + |EPIC_PARAMS| <= |url|
    ensures url[..|EPIC_URL|] == EPIC_URL
    ensures url[|url| - |EPIC_PARAMS|..] == EPIC_PARAMS
    ensures ByteParse(url[|EPIC_URL|..|url| - |EPIC_PARAMS|]) == Some(Utf8(game))
    ensures forall i :: |EPIC_URL| <= i < |url| - |EPIC_PARAMS| ==> FormChar(url[i])
  {
    var q := EncodeQuery(game);
    var url := EPIC_URL + q + EPIC_PARAMS;
    assert url[|EPIC_URL|..|url| - |EPIC_PARAMS|] == q;
    assert url[|url| - |EPIC_PARAMS|..] == EPIC_PARAMS;
    url
  }

  /** Nuuvem's search URL: the base followed by the encoded query. */
  function NuuvemUrl(game: string): (url: string)
    ensures |NUUVEM_URL| <= |url| && url[..|NUUVEM_URL|] == NUUVEM_URL
    ensures ByteParse(url[|NUUVEM_URL|..]) == Some(Utf8(game))
    ensures forall i :: |NUUVEM_URL| <= i < |url| ==> FormChar(url[i])
  {
    var url := NUUVEM_URL + EncodeQuery(game);
    assert url[|NUUVEM_URL|..] == EncodeQuery(game);
    url
  }

  /** An empty discount text reads "0%" (no active discount); any other text is kept as it is. */
  function DiscountOrZero(discount: string): (r: string)
    ensures r != ""
    ensures discount != "" ==> r == discount
  {
    if discount == "" then "0%" else discount
  }

  /** The record a Steam or Epic row yields, `None` when the row is dropped. */
  function ListingGame(row: Row, site: string): Option<Game> {
    var name := SelectionText(Matched(row, Title));
    var fullPrice := SelectionText(Matched(row, FullPrice));
    var discountedPrice := SelectionText(Matched(row, DiscountedPrice));
    var discount := SelectionText(Matched(row, Discount));
    var currency := Currency(SelectionText(Matched(row, DiscountedPrice)));
    var imgUrl := FirstSrc(Matched(row, ImgUrl));
    if discountedPrice != "" || fullPrice != "" then
      Some(Game(site, name, currency, fullPrice, discountedPrice, DiscountOrZero(discount), imgUrl))
    else None
  }

  /** The price Nuuvem shows: the integer-part text followed by the decimal-part text. */
  function NuuvemPrice(row: Row): string {
    SelectionText(Matched(row, PriceInteger)) + SelectionText(Matched(row, PriceDecimal))
  }

  /** The record a Nuuvem row yields, `None` when the row is dropped. */
  function NuuvemGame(row: Row): Option<Game> {
    var name := SelectionText(Matched(row, Title));
    var price := NuuvemPrice(row);
    var discount := SelectionText(Matched(row, Discount));
    var currency := Currency(SelectionText(Matched(row, CurrencySymbol)));
    var imgUrl := FirstSrc(Matched(row, ImgUrl));
    var shownPrice := if discount == "" then "R$0" else price;
    if price != "" then
      Some(Game(NUUVEM_SITE, name, currency, shownPrice, shownPrice, DiscountOrZero(discount), imgUrl))
    else None
  }

  /** How a builder turns one row into a record, or drops it. */
  type RowBuilder = Row -> Option<Game>

  /** The row rule of `get_game_steam` and `get_game_epic`, for the given site name. */
  function ListingBuilder(site: string): RowBuilder {
    row => ListingGame(row, site)
  }

  /** The row rule of `get_game_nuuvem`. */
  function NuuvemBuilder(): RowBuilder {
    row => NuuvemGame(row)
  }

  function Kept(g: Option<Game>): seq<Game> {
    if g.Some? then [g.value] else []
  }

  /** The records of a container's rows, in row order. */
  function CollectRows(rows: seq<Row>, build: RowBuilder): seq<Game> {
    if rows == [] then []
    else CollectRows(rows[..|rows| - 1], build) + Kept(build(rows[|rows| - 1]))
  }

  /** The records of a page: containers in order, rows in order within each. */
  function Collect(page: Page, build: RowBuilder): seq<Game> {
    if page == [] then []
    else Collect(page[..|page| - 1], build) + CollectRows(page[|page| - 1], build)
  }

  function TotalRows(page: Page): nat {
    if page == [] then 0 else TotalRows(page[..|page| - 1]) + |page[|page| - 1]|
  }

  /** The lists the two active builders produce for a query. */
  function SteamGames(fetch: string -> Page, game: string): seq<Game> {
    Collect(fetch(SteamUrl(game)), ListingBuilder(STEAM_SITE))
  }

  function EpicGames(fetch: string -> Page, game: string): seq<Game> {
    Collect(fetch(EpicUrl(game)), ListingBuilder(EPIC_SITE))
  }

  function NuuvemGames(fetch: string -> Page, game: string): seq<Game> {
    Collect(fetch(NuuvemUrl(game)), NuuvemBuilder())
  }

  // ---------------------------------------------------------------------------
  // Per-row rules

  /** A Steam or Epic row is kept exactly when its discounted or its full price text is non-empty. */
  lemma ListingKeptIff(row: Row, site: string)
    ensures ListingGame(row, site).Some? <==>
      (SelectionText(Matched(row, DiscountedPrice)) != "" || SelectionText(Matched(row, FullPrice)) != "")
  {
  }

  /**
   * A kept Steam or Epic record carries the site, the scraped texts verbatim,
   * the "0%" default for a missing discount, the currency read off the
   * discounted price (not the full price), and the first image's `src`.
   */
  lemma ListingFields(row: Row, site: string)
    requires ListingGame(row, site).Some?
    ensures var g := ListingGame(row, site).value;
      && g.site == site
      && g.name == SelectionText(Matched(row, Title))
      && g.fullPrice == SelectionText(Matched(row, FullPrice))
      && g.discountedPrice == SelectionText(Matched(row, DiscountedPrice))
      && g.currency == Currency(SelectionText(Matched(row, DiscountedPrice)))
      && (SelectionText(Matched(row, Discount)) == "" ==> g.discount == "0%")
      && (SelectionText(Matched(row, Discount)) != "" ==> g.discount == SelectionText(Matched(row, Discount)))
      && g.imgUrl == FirstSrc(Matched(row, ImgUrl))
  {
  }

  /** The full-price cell never affects the currency of a Steam or Epic record. */
  lemma ListingCurrencyIgnoresFullPrice(row: Row, site: string, other: Selection)
    requires ListingGame(row, site).Some?
    requires ListingGame(Row(row.matches[FullPrice := other]), site).Some?
    ensures ListingGame(Row(row.matches[FullPrice := other]), site).value.currency
            == ListingGame(row, site).value.currency
  {
    assert Matched(Row(row.matches[FullPrice := other]), DiscountedPrice) == Matched(row, DiscountedPrice);
  }

  /** A Nuuvem row is kept exactly when its integer and decimal price texts are not both empty. */
  lemma NuuvemKeptIff(row: Row)
    ensures NuuvemGame(row).Some? <==> NuuvemPrice(row) != ""
  {
  }

  /**
   * Nuuvem pricing: without a discount both prices are the placeholder "R$0"
   * and the discount reads "0%"; with one, both prices are the combined price
   * and the discount is kept as scraped. Either way the discounted price is
   * never empty.
   */
  lemma NuuvemFields(row: Row)
    requires NuuvemGame(row).Some?
    ensures var g := NuuvemGame(row).value;
      && g.site == NUUVEM_SITE
      && g.name == SelectionText(Matched(row, Title))
      && g.currency == Currency(SelectionText(Matched(row, CurrencySymbol)))
      && (SelectionText(Matched(row, Discount)) == "" ==>
            g.fullPrice == "R$0" && g.discountedPrice == "R$0" && g.discount == "0%")
      && (SelectionText(Matched(row, Discount)) != "" ==>
            g.fullPrice == NuuvemPrice(row) && g.discountedPrice == NuuvemPrice(row)
            && g.discount == SelectionText(Matched(row, Discount)))
      && g.discountedPrice != ""
      && g.imgUrl == FirstSrc(Matched(row, ImgUrl))
  {
  }

  /** The price parts are concatenated: the price begins with the integer part and ends with the decimal part. */
  lemma NuuvemPriceParts(row: Row)
    ensures var p := NuuvemPrice(row);
      var i := SelectionText(Matched(row, PriceInteger));
      var d := SelectionText(Matched(row, PriceDecimal));
      |p| == |i| + |d| && p[..|i|] == i && p[|i|..] == d
  {
  }

  /**
   * Every record the Steam or Epic builder yields shows a price: its
   * discounted price, or failing that its full price, is non-empty; so is its
   * discount label.
   */
  lemma ListingShowsPrice(row: Row, site: string)
    requires ListingGame(row, site).Some?
    ensures ShownPrice(ListingGame(row, site).value) != ""
    ensures ListingGame(row, site).value.discount != ""
  {
  }

  /**
   * A Nuuvem listing without a discount is rendered with its currency symbol
   * in front of the placeholder price: with the symbol "R$" the field reads
   * "Price: R$R$0" on its first line.
   */
  lemma NuuvemNoDiscountRendering(row: Row)
    requires NuuvemGame(row).Some?
    requires SelectionText(Matched(row, Discount)) == ""
    requires SelectionText(Matched(row, CurrencySymbol)) == "R$"
    ensures Display(GameOpt(NuuvemGame(row))) == "Price: R$R$0\nDiscount: 0%"
  {
    assert NoNumeric("R$");
    assert Currency("R$") == "R$";
    NuuvemFields(row);
    RenderPlaceholder(NuuvemGame(row).value);
  }

  lemma RenderPlaceholder(g: Game)
    requires g.site == NUUVEM_SITE && g.currency == "R$"
    requires g.discountedPrice == "R$0" && g.discount == "0%"
    ensures Display(GameOpt(Some(g))) == "Price: R$R$0\nDiscount: 0%"
  {
    assert PricePrefix(g) + ShownPrice(g) == "R$R$0";
  }

  /** The currency of a text without line breaks has none either. */
  lemma CurrencyNoNewline(text: string)
    requires NoNewline(text)
    ensures NoNewline(Currency(text))
  {
    var c := Currency(text);
    assert forall i :: 0 <= i < |c| ==> c[i] == text[i];
  }

  /**
   * A Steam or Epic record's field can be read back from its rendering: the
   * price shown and the discount come out exactly, since no scraped text holds
   * a line break.
   */
  lemma ListingReadBack(row: Row, site: string)
    requires ListingGame(row, site).Some?
    ensures Read(Display(GameOpt(ListingGame(row, site)))) == Some(View(GameOpt(ListingGame(row, site))))
  {
    var g := ListingGame(row, site).value;
    ListingFields(row, site);
    SelectionTextNoNewline(Matched(row, FullPrice));
    SelectionTextNoNewline(Matched(row, DiscountedPrice));
    CurrencyNoNewline(SelectionText(Matched(row, DiscountedPrice)));
    assert NoNewline(PricePrefix(g)) && NoNewline(ShownPrice(g));
    NoNewlineConcat(PricePrefix(g), ShownPrice(g));
    ReadDisplay(GameOpt(Some(g)));
  }

  /** A Nuuvem record's field can be read back from its rendering in the same way. */
  lemma NuuvemReadBack(row: Row)
    requires NuuvemGame(row).Some?
    ensures Read(Display(GameOpt(NuuvemGame(row)))) == Some(View(GameOpt(NuuvemGame(row))))
  {
    var g := NuuvemGame(row).value;
    NuuvemFields(row);
    SelectionTextNoNewline(Matched(row, PriceInteger));
    SelectionTextNoNewline(Matched(row, PriceDecimal));
    NoNewlineConcat(SelectionText(Matched(row, PriceInteger)), SelectionText(Matched(row, PriceDecimal)));
    SelectionTextNoNewline(Matched(row, CurrencySymbol));
    CurrencyNoNewline(SelectionText(Matched(row, CurrencySymbol)));
    assert NoNewline("R$0");
    assert NoNewline(PricePrefix(g)) && NoNewline(ShownPrice(g));
    NoNewlineConcat(PricePrefix(g), ShownPrice(g));
    ReadDisplay(GameOpt(Some(g)));
  }

  // ---------------------------------------------------------------------------
  // Page-level rules

  lemma {:induction false} CollectRowsLength(rows: seq<Row>, build: RowBuilder)
    ensures |CollectRows(rows, build)| <= |rows|
  {
    if rows != [] {
      CollectRowsLength(rows[..|rows| - 1], build);
    }
  }

  /** A builder never yields more records than the page has rows. */
  lemma {:induction false} CollectLength(page: Page, build: RowBuilder)
    ensures |Collect(page, build)| <= TotalRows(page)
  {
    if page != [] {
      CollectLength(page[..|page| - 1], build);
      CollectRowsLength(page[|page| - 1], build);
    }
  }

  lemma CollectRowsSnoc(rows: seq<Row>, r: nat, build: RowBuilder)
    requires r < |rows|
    ensures CollectRows(rows[..r + 1], build) == CollectRows(rows[..r], build) + Kept(build(rows[r]))
  {
    assert rows[..r + 1][..r] == rows[..r];
  }

  lemma CollectSnoc(page: Page, c: nat, build: RowBuilder)
    requires c < |page|
    ensures Collect(page[..c + 1], build) == Collect(page[..c], build) + CollectRows(page[c], build)
  {
    assert page[..c + 1][..c] == page[..c];
  }

  /** Rows keep their order: the records of two runs of rows are those of the first, then those of the second. */
  lemma {:induction false} CollectRowsAppend(a: seq<Row>, b: seq<Row>, build: RowBuilder)
    ensures CollectRows(a + b, build) == CollectRows(a, build) + CollectRows(b, build)
  {
    if b == [] {
      assert a + b == a;
    } else {
      assert (a + b)[..|a + b| - 1] == a + b[..|b| - 1];
      CollectRowsAppend(a, b[..|b| - 1], build);
    }
  }

  /** Containers keep their order: the records of two runs of containers are those of the first, then the second's. */
  lemma {:induction false} CollectAppend(p: Page, q: Page, build: RowBuilder)
    ensures Collect(p + q, build) == Collect(p, build) + Collect(q, build)
  {
    if q == [] {
      assert p + q == p;
    } else {
      assert (p + q)[..|p + q| - 1] == p + q[..|q| - 1];
      CollectAppend(p, q[..|q| - 1], build);
    }
  }

  /** A record is in a container's list exactly when some row of it yields that record. */
  lemma {:induction false} CollectRowsMembers(rows: seq<Row>, build: RowBuilder, g: Game)
    ensures g in CollectRows(rows, build) <==>
      exists r :: 0 <= r < |rows| && build(rows[r]) == Some(g)
  {
    if rows != [] {
      var init := rows[..|rows| - 1];
      CollectRowsMembers(init, build, g);
      assert forall r :: 0 <= r < |init| ==> init[r] == rows[r];
    }
  }

  /** A record is in a page's list exactly when some row of some container yields that record. */
  lemma {:induction false} CollectMembers(page: Page, build: RowBuilder, g: Game)
    ensures g in Collect(page, build) <==>
      exists c, r :: 0 <= c < |page| && 0 <= r < |page[c]| && build(page[c][r]) == Some(g)
  {
    if page != [] {
      var init := page[..|page| - 1];
      CollectMembers(init, build, g);
      CollectRowsMembers(page[|page| - 1], build, g);
      assert forall c :: 0 <= c < |init| ==> init[c] == page[c];
    }
  }

  /** Every record of a builder's list satisfies whatever every record the row rule yields satisfies. */
  lemma CollectAll(page: Page, build: RowBuilder, P: Game -> bool)
    requires forall row :: build(row).Some? ==> P(build(row).value)
    ensures forall g :: g in Collect(page, build) ==> P(g)
  {
    forall g | g in Collect(page, build)
      ensures P(g)
    {
      CollectMembers(page, build, g);
      var c, r :| 0 <= c < |page| && 0 <= r < |page[c]| && build(page[c][r]) == Some(g);
    }
  }

  /** Each builder's list is tagged with its own site and shows a price on every record. */
  lemma BuildersTagAndPrice(page: Page)
    ensures forall g :: g in Collect(page, ListingBuilder(STEAM_SITE)) ==> g.site == STEAM_SITE && ShownPrice(g) != ""
    ensures forall g :: g in Collect(page, ListingBuilder(EPIC_SITE)) ==> g.site == EPIC_SITE && ShownPrice(g) != ""
    ensures forall g :: g in Collect(page, NuuvemBuilder()) ==> g.site == NUUVEM_SITE && g.discountedPrice != ""
  {
    forall site, row | ListingBuilder(site)(row).Some?
      ensures ListingBuilder(site)(row).value.site == site && ShownPrice(ListingBuilder(site)(row).value) != ""
    {
      ListingShowsPrice(row, site);
    }
    CollectAll(page, ListingBuilder(STEAM_SITE), (g: Game) => g.site == STEAM_SITE && ShownPrice(g) != "");
    CollectAll(page, ListingBuilder(EPIC_SITE), (g: Game) => g.site == EPIC_SITE && ShownPrice(g) != "");
    CollectAll(page, NuuvemBuilder(), (g: Game) => g.site == NUUVEM_SITE && g.discountedPrice != "");
  }

  // ---------------------------------------------------------------------------
  // The builders

  /** The body of the row loop of `get_game_steam` and `get_game_epic`: read the fields, keep the row if it has a price. */
  method ReadListingRow(gameRow: Row, site: string) returns (game: Option<Game>)
    ensures game == ListingGame(gameRow, site)
  {
    var gameName := GetElementText(Matched(gameRow, Title));
    var gameFullPrice := GetElementText(Matched(gameRow, FullPrice));
    var gameDiscountedPrice := GetElementText(Matched(gameRow, DiscountedPrice));
    var gameDiscount := GetElementText(Matched(gameRow, Discount));
    var gameCurrency := GetCurrency(Matched(gameRow, DiscountedPrice));
    var imgSelect := new Select(Matched(gameRow, ImgUrl));
    var gameImgUrl := GetAttrSrcText(imgSelect);
    if gameDiscountedPrice != "" || gameFullPrice != "" {
      game := Some(Game(site, gameName, gameCurrency, gameFullPrice, gameDiscountedPrice,
                        if gameDiscount == "" then "0%" else gameDiscount, gameImgUrl));
    } else {
      game := None;
    }
  }

  /** The row loop of `get_game_steam` and `get_game_epic`: each row of one container in order, pushing each kept record. */
  method ScrapeListingRows(gameList: seq<Game>, mainRows: seq<Row>, site: string) returns (out: seq<Game>)
    ensures out == gameList + CollectRows(mainRows, ListingBuilder(site))
  {
    out := gameList;
    for r := 0 to |mainRows|
      invariant out == gameList + CollectRows(mainRows[..r], ListingBuilder(site))
    {
      var game := ReadListingRow(mainRows[r], site);
      CollectRowsSnoc(mainRows, r, ListingBuilder(site));
      if game.Some? {
        out := out + [game.value];
      }
    }
    assert mainRows[..|mainRows|] == mainRows;
  }

  /** The container loop of `get_game_steam` and `get_game_epic`: every container in document order. */
  method ScrapeListing(document: Page, site: string) returns (gameList: seq<Game>)
    ensures gameList == Collect(document, ListingBuilder(site))
  {
    gameList := [];
    for c := 0 to |document|
      invariant gameList == Collect(document[..c], ListingBuilder(site))
    {
      gameList := ScrapeListingRows(gameList, document[c], site);
      CollectSnoc(document, c, ListingBuilder(site));
    }
    assert document[..|document|] == document;
  }

  /** `get_game_steam`: fetch the search page for the encoded query and read its rows. */
  method GetGameSteam(fetch: string -> Page, game: string) returns (gameList: seq<Game>)
    ensures gameList == SteamGames(fetch, game)
    ensures |gameList| <= TotalRows(fetch(SteamUrl(game)))
  {
    var url := SteamUrl(game);
    var document := fetch(url);
    gameList := ScrapeListing(document, STEAM_SITE);
    CollectLength(document, ListingBuilder(STEAM_SITE));
  }

  /** `get_game_epic`: as Steam, with Epic's URL, parameters and site name. */
  method GetGameEpic(fetch: string -> Page, game: string) returns (gameList: seq<Game>)
    ensures gameList == EpicGames(fetch, game)
    ensures |gameList| <= TotalRows(fetch(EpicUrl(game)))
  {
    var url := EpicUrl(game);
    var document := fetch(url);
    gameList := ScrapeListing(document, EPIC_SITE);
    CollectLength(document, ListingBuilder(EPIC_SITE));
  }

  /** The body of the row loop of `get_game_nuuvem`: combine the price parts, keep the row if the price is there. */
  method ReadNuuvemRow(gameRow: Row) returns (game: Option<Game>)
    ensures game == NuuvemGame(gameRow)
  {
    var gameName := GetElementText(Matched(gameRow, Title));
    var integerPart := GetElementText(Matched(gameRow, PriceInteger));
    var decimalPart := GetElementText(Matched(gameRow, PriceDecimal));
    var gamePrice := integerPart + decimalPart;
    var gameDiscount := GetElementText(Matched(gameRow, Discount));
    var gameCurrency := GetCurrency(Matched(gameRow, CurrencySymbol));
    var imgSelect := new Select(Matched(gameRow, ImgUrl));
    var gameImgUrl := GetAttrSrcText(imgSelect);
    if gamePrice != "" {
      game := Some(Game(NUUVEM_SITE, gameName, gameCurrency,
                        if gameDiscount == "" then "R$0" else gamePrice,
                        if gameDiscount == "" then "R$0" else gamePrice,
                        if gameDiscount == "" then "0%" else gameDiscount, gameImgUrl));
    } else {
      game := None;
    }
  }

  /** The row loop of `get_game_nuuvem`: each row of one container in order, pushing each kept record. */
  method ScrapeNuuvemRows(gameList: seq<Game>, mainRows: seq<Row>) returns (out: seq<Game>)
    ensures out == gameList + CollectRows(mainRows, NuuvemBuilder())
  {
    out := gameList;
    for r := 0 to |mainRows|
      invariant out == gameList + CollectRows(mainRows[..r], NuuvemBuilder())
    {
      var game := ReadNuuvemRow(mainRows[r]);
      CollectRowsSnoc(mainRows, r, NuuvemBuilder());
      if game.Some? {
        out := out + [game.value];
      }
    }
    assert mainRows[..|mainRows|] == mainRows;
  }

  /** The container loop of `get_game_nuuvem`: every container in document order. */
  method ScrapeNuuvem(document: Page) returns (gameList: seq<Game>)
    ensures gameList == Collect(document, NuuvemBuilder())
  {
    gameList := [];
    for c := 0 to |document|
      invariant gameList == Collect(document[..c], NuuvemBuilder())
    {
      gameList := ScrapeNuuvemRows(gameList, document[c]);
      CollectSnoc(document, c, NuuvemBuilder());
    }
    assert document[..|document|] == document;
  }

  /** `get_game_nuuvem`: fetch the search page for the encoded query and read its rows. */
  method GetGameNuuvem(fetch: string -> Page, game: string) returns (gameList: seq<Game>)
    ensures gameList == NuuvemGames(fetch, game)
    ensures |gameList| <= TotalRows(fetch(NuuvemUrl(game)))
  {
    var url := NuuvemUrl(game);
    var document := fetch(url);
    gameList := ScrapeNuuvem(document);
    CollectLength(document, NuuvemBuilder());
  }

  // ---------------------------------------------------------------------------
  // Reconciliation: `deal`

  /** One embed field: the site name, the outcome rendered under it, and the inline flag. */
  datatype EmbedField = EmbedField(name: string, value: GameOpt, inline: bool)

  /** What `deal` sends: the embed's title, its image and its fields. */
  datatype Embed = Embed(title: string, image: string, fields: seq<EmbedField>)

  /** Fields in descending order of site name, as `sort_by(|a, b| b.0.cmp(&a.0))` leaves them. */
  predicate SortedDesc(fs: seq<EmbedField>) {
    forall i :: 0 <= i < |fs| - 1 ==> !StrLess(fs[i].name, fs[i + 1].name)
  }

  /** Puts `x` in a descending list, ahead of every field whose name is not greater. */
  function InsertDesc(x: EmbedField, fs: seq<EmbedField>): (r: seq<EmbedField>)
    requires SortedDesc(fs)
    ensures SortedDesc(r)
    ensures multiset(r) == multiset(fs) + multiset{x}
    ensures r != [] && (r[0] == x || (fs != [] && r[0] == fs[0]))
  {
    if fs == [] || !StrLess(x.name, fs[0].name) then
      [x] + fs
    else
      var rest := InsertDesc(x, fs[1..]);
      StrLessAsymmetric(x.name, fs[0].name);
      assert fs == [fs[0]] + fs[1..];
      [fs[0]] + rest
  }

  /** `fields_vec.sort_by(|a, b| b.0.cmp(&a.0))`: the fields reordered by descending site name. */
  function SortByNameDesc(fs: seq<EmbedField>): (r: seq<EmbedField>)
    ensures SortedDesc(r)
    ensures multiset(r) == multiset(fs)
  {
    if fs == [] then []
    else
      assert fs == [fs[0]] + fs[1..];
      InsertDesc(fs[0], SortByNameDesc(fs[1..]))
  }

  /** Two fields with different names come out in one order whichever order they went in. */
  lemma SortTwo(a: EmbedField, b: EmbedField)
    requires StrLess(b.name, a.name)
    ensures SortByNameDesc([a, b]) == [a, b]
    ensures SortByNameDesc([b, a]) == [a, b]
  {
    StrLessAsymmetric(b.name, a.name);
    assert [a, b][1..] == [b] && [b, a][1..] == [a];
    assert SortByNameDesc([b]) == [b] && SortByNameDesc([a]) == [a];
  }

  /** "Steam" sorts after "Nuuvem", so a descending order puts Steam first. */
  lemma NuuvemBeforeSteam()
    ensures StrLess(NUUVEM_SITE, STEAM_SITE)
  {
    assert NUUVEM_SITE[0] == 'N' && STEAM_SITE[0] == 'S';
  }

  /** The title and image the embed shows. */
  datatype Identity = Identity(name: string, imgUrl: string)

  /** Steam's first record, else Nuuvem's first record, else the query with no image. */
  function Elect(game: string, steam: seq<Game>, nuuvem: seq<Game>): Identity {
    if steam != [] then Identity(steam[0].name, steam[0].imgUrl)
    else if nuuvem != [] then Identity(nuuvem[0].name, nuuvem[0].imgUrl)
    else Identity(game, "")
  }

  /**
   * What `deal` sends for a query, given the lists the two active builders
   * produced: the elected title and image, and one field per active site,
   * Steam first and Nuuvem second, each holding that site's first record whose
   * name matches the title ignoring case.
   */
  function Comparison(game: string, steam: seq<Game>, nuuvem: seq<Game>): (r: Embed)
    ensures steam != [] ==> r.title == steam[0].name && r.image == steam[0].imgUrl
    ensures steam == [] && nuuvem != [] ==> r.title == nuuvem[0].name && r.image == nuuvem[0].imgUrl
    ensures steam == [] && nuuvem == [] ==> r.title == game && r.image == ""
    ensures r.fields == [EmbedField(STEAM_SITE, SearchIn(GamesVec(steam), r.title), true),
                         EmbedField(NUUVEM_SITE, SearchIn(GamesVec(nuuvem), r.title), true)]
    ensures SortedDesc(r.fields)
  {
    var id := Elect(game, steam, nuuvem);
    var steamField := EmbedField(STEAM_SITE, SearchIn(GamesVec(steam), id.name), true);
    var nuuvemField := EmbedField(NUUVEM_SITE, SearchIn(GamesVec(nuuvem), id.name), true);
    NuuvemBeforeSteam();
    SortTwo(steamField, nuuvemField);
    Embed(id.name, id.imgUrl, SortByNameDesc([nuuvemField, steamField]))
  }

  /** When Steam found anything, its field holds Steam's first record, whatever Nuuvem found. */
  lemma SteamFirstRecordShown(game: string, steam: seq<Game>, nuuvem: seq<Game>)
    requires steam != []
    ensures Comparison(game, steam, nuuvem).fields[0].value == GameOpt(Some(steam[0]))
  {
    var r := Comparison(game, steam, nuuvem);
    assert NameMatches(steam[0], r.title);
  }

  /** When only Nuuvem found anything, Steam's field is empty and Nuuvem's holds its first record. */
  lemma NuuvemFallbackShown(game: string, nuuvem: seq<Game>)
    requires nuuvem != []
    ensures Comparison(game, [], nuuvem).fields[0].value == GameOpt(None)
    ensures Comparison(game, [], nuuvem).fields[1].value == GameOpt(Some(nuuvem[0]))
  {
    var r := Comparison(game, [], nuuvem);
    assert NameMatches(nuuvem[0], r.title);
  }

  /**
   * When neither site found anything the embed is titled with the query, has
   * no image, and both fields render "Not found!".
   */
  lemma NothingFoundShown(game: string)
    ensures Comparison(game, [], []).title == game
    ensures Comparison(game, [], []).image == ""
    ensures forall i :: 0 <= i < 2 ==> Display(Comparison(game, [], []).fields[i].value) == "Not found!"
  {
  }

  /** Nuuvem's field finds a record whose name differs from Steam's first record only in case. */
  lemma CrossSiteMatchIgnoresCase(game: string, s: Game, n: Game)
    requires s.name == "Half-Life" && n.name == "HALF-LIFE"
    ensures Comparison(game, [s], [n]).fields[1].value == GameOpt(Some(n))
  {
    var r := Comparison(game, [s], [n]);
    assert r.title == "Half-Life";
    assert Lowercase("HALF-LIFE") == Lowercase("Half-Life");
    assert NameMatches(n, r.title);
  }

  /** An entry of a site-to-outcome map as an inline embed field. */
  predicate FieldOfEntry(siteGames: map<string, GameOpt>, f: EmbedField) {
    f.name in siteGames && f == EmbedField(f.name, siteGames[f.name], true)
  }

  /**
   * The loop of `deal` over the map's entries: one inline field per entry, each
   * key exactly once, in whatever order the map yields its keys.
   */
  method MapFields(siteGames: map<string, GameOpt>) returns (fields: seq<EmbedField>)
    ensures |fields| == |siteGames.Keys|
    ensures forall i :: 0 <= i < |fields| ==> FieldOfEntry(siteGames, fields[i])
    ensures forall i, j :: 0 <= i < j < |fields| ==> fields[i].name != fields[j].name
  {
    fields := [];
    var remaining := siteGames.Keys;
    while remaining != {}
      invariant remaining <= siteGames.Keys
      invariant |fields| + |remaining| == |siteGames.Keys|
      invariant forall i :: 0 <= i < |fields| ==>
                  FieldOfEntry(siteGames, fields[i]) && fields[i].name !in remaining
      invariant forall i, j :: 0 <= i < j < |fields| ==> fields[i].name != fields[j].name
      decreases remaining
    {
      var site :| site in remaining;
      fields := fields + [EmbedField(site, siteGames[site], true)];
      remaining := remaining - {site};
    }
  }

  /** With Steam's and Nuuvem's entries in the map, the fields come out in one of two orders. */
  lemma TwoSiteFields(siteGames: map<string, GameOpt>, fields: seq<EmbedField>, steam: GameOpt, nuuvem: GameOpt)
    requires siteGames == map[STEAM_SITE := steam][NUUVEM_SITE := nuuvem]
    requires |fields| == |siteGames.Keys|
    requires forall i :: 0 <= i < |fields| ==> FieldOfEntry(siteGames, fields[i])
    requires forall i, j :: 0 <= i < j < |fields| ==> fields[i].name != fields[j].name
    ensures fields == [EmbedField(STEAM_SITE, steam, true), EmbedField(NUUVEM_SITE, nuuvem, true)]
         || fields == [EmbedField(NUUVEM_SITE, nuuvem, true), EmbedField(STEAM_SITE, steam, true)]
  {
    assert STEAM_SITE != NUUVEM_SITE by { assert STEAM_SITE[0] != NUUVEM_SITE[0]; }
    assert siteGames.Keys == {STEAM_SITE, NUUVEM_SITE};
    assert |fields| == 2;
    assert FieldOfEntry(siteGames, fields[0]) && FieldOfEntry(siteGames, fields[1]);
  }

  /**
   * `deal`, from the two fetches to the embed it sends: Steam's and Nuuvem's
   * lists (Epic's call is disabled), the elected title and image, a lookup
   * per site kept in a map, the map's entries in whatever order it yields
   * them, then sorted by descending site name.
   */
  method Deal(fetch: string -> Page, game: string) returns (embed: Embed)
    ensures embed == Comparison(game, SteamGames(fetch, game), NuuvemGames(fetch, game))
  {
    var sites := SITES;
    var steamList := GetGameSteam(fetch, game);
    var gamesSteam := GamesVec(steamList);
    var nuuvemList := GetGameNuuvem(fetch, game);
    var gamesNuuvem := GamesVec(nuuvemList);

    var gameName := game;
    var imgUrl := "";
    if gamesSteam.games != [] {
      gameName := gamesSteam.games[0].name;
      imgUrl := gamesSteam.games[0].imgUrl;
    } else if gamesNuuvem.games != [] {
      gameName := gamesNuuvem.games[0].name;
      imgUrl := gamesNuuvem.games[0].imgUrl;
    }

    var gameSteamOpt := SearchIn(gamesSteam, gameName);
    var gameNuuvemOpt := SearchIn(gamesNuuvem, gameName);
    var siteGames: map<string, GameOpt> := map[];
    siteGames := siteGames[sites[0] := gameSteamOpt];
    siteGames := siteGames[sites[2] := gameNuuvemOpt];

    var fieldsVec := MapFields(siteGames);
    TwoSiteFields(siteGames, fieldsVec, gameSteamOpt, gameNuuvemOpt);
    var steamField := EmbedField(STEAM_SITE, gameSteamOpt, true);
    var nuuvemField := EmbedField(NUUVEM_SITE, gameNuuvemOpt, true);
    NuuvemBeforeSteam();
    SortTwo(steamField, nuuvemField);
    fieldsVec := SortByNameDesc(fieldsVec);

    embed := Embed(gameName, imgUrl, fieldsVec);
  }
}
