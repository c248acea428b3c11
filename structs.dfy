/**
 * The records the scraper produces (`Game`, `GamesVec`, `GameOpt`) and the
 * text a search outcome is shown as in the chat embed (`Display for GameOpt`).
 */
module Structs {
  import opened Wrappers

  /** One storefront listing. Prices and the discount are display strings, kept as scraped. */
  datatype Game = Game(
    site: string,
    name: string,
    currency: string,
    fullPrice: string,
    discountedPrice: string,
    discount: string,
    imgUrl: string)

  /** The listings one storefront returned, in document order. */
  datatype GamesVec = GamesVec(games: seq<Game>)

  /** The outcome of looking one name up in one storefront's listings. */
  datatype GameOpt = GameOpt(game: Option<Game>)

  /** The only site whose prices are shown with their currency symbol in front. */
  const NUUVEM_SITE: string := "Nuuvem"

  /** The price a found game shows: the discounted price when there is one, else the full price. */
  function ShownPrice(g: Game): string {
    if g.discountedPrice != "" then g.discountedPrice else g.fullPrice
  }

  /** What goes in front of the shown price: the currency for Nuuvem, nothing for other sites. */
  function PricePrefix(g: Game): string {
    if g.site == NUUVEM_SITE then g.currency else ""
  }

  /** `impl Display for GameOpt`. */
  function Display(o: GameOpt): (r: string)
    ensures o.game.None? ==> r == "Not found!"
    ensures o.game.Some? ==>
      r == "Price: " + PricePrefix(o.game.value) + ShownPrice(o.game.value)
           + "\nDiscount: " + o.game.value.discount
  {
    match o.game
    case Some(g) =>
      if g.discountedPrice == "" then
        if g.site == "Nuuvem" then "Price: " + g.currency + g.fullPrice + "\nDiscount: " + g.discount
        else "Price: " + g.fullPrice + "\nDiscount: " + g.discount
      else
        if g.site == "Nuuvem" then "Price: " + g.currency + g.discountedPrice + "\nDiscount: " + g.discount
        else "Price: " + g.discountedPrice + "\nDiscount: " + g.discount
    case None => "Not found!"
  }

  /** What a reader of the embed can tell from one field. */
  datatype Shown = NotFound | Priced(price: string, discount: string)

  /** What a rendering says, when the price text itself holds no line break. */
  function View(o: GameOpt): Shown {
    match o.game
    case None => NotFound
    case Some(g) => Priced(PricePrefix(g) + ShownPrice(g), g.discount)
  }

  predicate NoNewline(s: string) {
    forall i :: 0 <= i < |s| ==> s[i] != '\n'
  }

  lemma NoNewlineConcat(a: string, b: string)
    requires NoNewline(a) && NoNewline(b)
    ensures NoNewline(a + b)
  {
    forall i | 0 <= i < |a + b|
      ensures (a + b)[i] != '\n'
    {
      if i >= |a| {
        assert (a + b)[i] == b[i - |a|];
      }
    }
  }

  /** The index of the first line break in `s`, or `|s|` when there is none. */
  function FirstNewline(s: string): (k: nat)
    ensures k <= |s|
    ensures NoNewline(s[..k])
    ensures k < |s| ==> s[k] == '\n'
  {
    if s == [] then 0
    else if s[0] == '\n' then 0
    else 1 + FirstNewline(s[1..])
  }

  const DISCOUNT_LABEL: string := "\nDiscount: "

  /** Reads a field back: "Not found!", or the price up to the first line break and the discount after the label. */
  function Read(r: string): (v: Option<Shown>)
  {
    if r == "Not found!" then Some(NotFound)
    else if |r| >= 7 && r[..7] == "Price: " then
      var rest := r[7..];
      var k := FirstNewline(rest);
      if k + |DISCOUNT_LABEL| <= |rest| && rest[k..k + |DISCOUNT_LABEL|] == DISCOUNT_LABEL
      then Some(Priced(rest[..k], rest[k + |DISCOUNT_LABEL|..]))
      else None
    else None
  }

  lemma {:induction false} FirstNewlineOfConcat(x: string, y: string)
    requires NoNewline(x) && y != [] && y[0] == '\n'
    ensures FirstNewline(x + y) == |x|
  {
    if x != [] {
      assert (x + y)[1..] == x[1..] + y;
      FirstNewlineOfConcat(x[1..], y);
    }
  }

  /**
   * Rendering loses nothing a reader needs: when the price text has no line
   * break, the price and the discount can be read back from the rendering,
   * and "Not found!" is never confused with a found game.
   */
  lemma ReadDisplay(o: GameOpt)
    requires o.game.Some? ==> NoNewline(PricePrefix(o.game.value) + ShownPrice(o.game.value))
    ensures Read(Display(o)) == Some(View(o))
  {
    if o.game.Some? {
      var g := o.game.value;
      var x := PricePrefix(g) + ShownPrice(g);
      var r := Display(o);
      assert r == "Price: " + (x + DISCOUNT_LABEL + g.discount);
      assert r != "Not found!" by {
        assert r[0] == 'P';
      }
      assert r[..7] == "Price: ";
      var rest := r[7..];
      assert rest == x + (DISCOUNT_LABEL + g.discount);
      FirstNewlineOfConcat(x, DISCOUNT_LABEL + g.discount);
      assert rest[..|x|] == x;
      assert rest[|x|..|x| + |DISCOUNT_LABEL|] == DISCOUNT_LABEL;
      assert rest[|x| + |DISCOUNT_LABEL|..] == g.discount;
    }
  }
}
