/**
 * The field-extraction helpers. The parsed HTML is abstract: an element is its
 * text nodes (in document order) and its attributes, and a selection is the
 * sequence of elements a CSS selector matched, in document order.
 */
module Funcs {
  import opened Wrappers
  import opened Text
  import opened Structs

  /** A matched element: `ElementRef::text()` and `Element::attr`. */
  datatype Element = Element(texts: seq<string>, attrs: map<string, string>)

  /** What one selector matched, in document order. */
  type Selection = seq<Element>

  /** The selection iterator `scraper::element_ref::Select`: the matches not taken yet. */
  class Select {
    var rest: Selection

    constructor (matches: Selection)
      ensures rest == matches
    {
      rest := matches;
    }

    /** `Iterator::next`: takes the first remaining match, if there is one. */
    method Next() returns (e: Option<Element>)
      modifies this
      ensures old(rest) == [] ==> e == None && rest == []
      ensures old(rest) != [] ==> e == Some(old(rest)[0]) && rest == old(rest)[1..]
    {
      if rest == [] {
        e := None;
      } else {
        e := Some(rest[0]);
        rest := rest[1..];
      }
    }
  }

  /**
   * One element's text: its text nodes joined with a space, trimmed, and each
   * line break replaced by a space.
   */
  function ElementText(e: Element): string {
    ReplaceChar(Trim(Join(e.texts, " ")), '\n', ' ')
  }

  /** An element's text has no line break and no whitespace at either end. */
  lemma ElementTextShape(e: Element)
    ensures NoNewline(ElementText(e))
    ensures Trimmed(ElementText(e))
  {
    var t := Trim(Join(e.texts, " "));
    TrimSpec(Join(e.texts, " "));
    var r := ElementText(e);
    if r != [] {
      assert r[0] == t[0] && r[|r| - 1] == t[|t| - 1];
    }
  }

  /** `Iterator<Item = String>::collect::<String>()`: the pieces with nothing between them. */
  function Concat(parts: seq<string>): string {
    if parts == [] then "" else parts[0] + Concat(parts[1..])
  }

  /** The text of each element of a selection, in order. */
  function Texts(sel: Selection): (r: seq<string>)
    ensures |r| == |sel|
    ensures forall i :: 0 <= i < |sel| ==> r[i] == ElementText(sel[i])
  {
    if sel == [] then [] else [ElementText(sel[0])] + Texts(sel[1..])
  }

  /** What `get_element_text` returns for a selection. */
  function SelectionText(sel: Selection): string {
    Concat(Texts(sel))
  }

  lemma {:induction false} ConcatAppend(a: seq<string>, b: seq<string>)
    ensures Concat(a + b) == Concat(a) + Concat(b)
  {
    if a != [] {
      assert (a + b)[1..] == a[1..] + b;
      assert Concat(a + b) == a[0] + Concat(a[1..] + b);
      ConcatAppend(a[1..], b);
    } else {
      assert a + b == b;
    }
  }

  lemma {:induction false} TextsAppend(a: Selection, b: Selection)
    ensures Texts(a + b) == Texts(a) + Texts(b)
  {
    if a == [] {
      assert a + b == b;
    } else {
      assert (a + b)[1..] == a[1..] + b;
      TextsAppend(a[1..], b);
    }
  }

  /**
   * The selection's text is the concatenation, with no separator, of the texts
   * of its parts: splitting a selection anywhere splits its text there.
   */
  lemma {:induction false} SelectionTextAppend(a: Selection, b: Selection)
    ensures SelectionText(a + b) == SelectionText(a) + SelectionText(b)
  {
    TextsAppend(a, b);
    ConcatAppend(Texts(a), Texts(b));
  }

  /** A selection of one element has exactly that element's text. */
  lemma SelectionTextSingle(e: Element)
    ensures SelectionText([e]) == ElementText(e)
  {
    assert Texts([e]) == [ElementText(e)];
    assert Concat([ElementText(e)]) == ElementText(e) + Concat([]);
  }

  /** The text of a selection never holds a line break. */
  lemma {:induction false} SelectionTextNoNewline(sel: Selection)
    ensures NoNewline(SelectionText(sel))
  {
    if sel != [] {
      ElementTextShape(sel[0]);
      SelectionTextNoNewline(sel[1..]);
      assert SelectionText(sel) == ElementText(sel[0]) + SelectionText(sel[1..]);
    }
  }

  /** `get_element_text`: walks a copy of the selection, collecting each element's text. */
  method GetElementText(select: Selection) returns (text: string)
    ensures text == SelectionText(select)
    ensures select == [] ==> text == ""
    ensures NoNewline(text)
  {
    var elements: seq<string> := [];
    for i := 0 to |select|
      invariant elements == Texts(select[..i])
    {
      var element := ElementText(select[i]);
      assert select[..i + 1] == select[..i] + [select[i]];
      TextsAppend(select[..i], [select[i]]);
      assert Texts([select[i]]) == [element];
      elements := elements + [element];
    }
    assert select[..|select|] == select;
    text := Concat(elements);
    SelectionTextNoNewline(select);
  }

  /**
   * `split(char::is_numeric)`: the pieces between numeric characters. There is
   * always at least one piece, so `first().unwrap()` cannot fail; there is one
   * piece more than there are numeric characters, and no piece holds one.
   */
  function SplitNumeric(s: string): (pieces: seq<string>)
    ensures |pieces| >= 1
    ensures |pieces| == CountNumeric(s) + 1
    ensures forall i :: 0 <= i < |pieces| ==> NoNumeric(pieces[i])
    ensures |pieces[0]| <= |s| && pieces[0] == s[..|pieces[0]|]
    ensures |pieces[0]| < |s| ==> IsNumeric(s[|pieces[0]|])
  {
    if s == [] then [""]
    else if IsNumeric(s[0]) then [""] + SplitNumeric(s[1..])
    else
      var rest := SplitNumeric(s[1..]);
      [[s[0]] + rest[0]] + rest[1..]
  }

  function CountNumeric(s: string): nat {
    if s == [] then 0 else (if IsNumeric(s[0]) then 1 else 0) + CountNumeric(s[1..])
  }

  /**
   * The currency symbol in front of a price: the text before its first
   * numeric character, or the whole text when it has none.
   */
  function Currency(text: string): (c: string)
    ensures |c| <= |text| && c == text[..|c|]
    ensures NoNumeric(c)
    ensures |c| < |text| ==> IsNumeric(text[|c|])
  {
    SplitNumeric(text)[0]
  }

  /** The usual price: the symbol in front of the digits. */
  lemma CurrencyOfPrice()
    ensures Currency("R$49,90") == "R$"
  {
    assert IsNumeric("R$49,90"[2]);
  }

  /** An empty text and a text that starts with a digit give an empty symbol. */
  lemma CurrencyOfEmptyAndBare()
    ensures Currency("") == ""
    ensures Currency("49,90") == ""
  {
    assert IsNumeric("49,90"[0]);
  }

  /** A text without digits is returned whole. */
  lemma CurrencyWithoutDigits(t: string)
    requires NoNumeric(t)
    ensures Currency(t) == t
  {
  }

  /** `get_currency`: the currency in front of the selection's text. */
  method GetCurrency(cell: Selection) returns (currency: string)
    ensures currency == Currency(SelectionText(cell))
  {
    var monetaryText := GetElementText(cell);
    var splitText := SplitNumeric(monetaryText);
    currency := splitText[0];
  }

  /** The `src` attribute of the first element of a selection, or "" when there is none. */
  function FirstSrc(sel: Selection): string {
    if sel != [] && "src" in sel[0].attrs then sel[0].attrs["src"] else ""
  }

  /** Only the first element is looked at: whatever follows it does not change the result. */
  lemma FirstSrcIgnoresLater(e: Element, later: Selection)
    ensures FirstSrc([e] + later) == FirstSrc([e])
  {
  }

  /** A first element without `src` gives "" even when a later element has one. */
  lemma FirstSrcMissingOnFirst(e: Element, later: Selection)
    requires "src" !in e.attrs
    ensures FirstSrc([e] + later) == ""
  {
  }

  /** `get_attr_src_text`: advances the iterator once and reads `src` off that element. */
  method GetAttrSrcText(select: Select) returns (src: string)
    modifies select
    ensures src == FirstSrc(old(select.rest))
    ensures select.rest == if old(select.rest) == [] then [] else old(select.rest)[1..]
  {
    var element := select.Next();
    src := "";
    if element.Some? {
      if "src" in element.value.attrs {
        src := element.value.attrs["src"];
      }
    }
  }

  /** The matching rule of `search_in`: names equal once both are lowercased. */
  predicate NameMatches(g: Game, text: string) {
    EqualIgnoringCase(g.name, text)
  }

  /** `Iterator::position`: the least index whose game matches, if any. */
  function Position(games: seq<Game>, text: string): (r: Option<nat>)
    ensures r.Some? ==> r.value < |games| && NameMatches(games[r.value], text)
    ensures r.Some? ==> forall j :: 0 <= j < r.value ==> !NameMatches(games[j], text)
    ensures r.None? ==> forall j :: 0 <= j < |games| ==> !NameMatches(games[j], text)
  {
    if games == [] then None
    else if Lowercase(games[0].name) == Lowercase(text) then Some(0)
    else
      match Position(games[1..], text)
      case Some(i) => Some(i + 1)
      case None => None
  }

  /**
   * `search_in`: the first game, in list order, whose name equals the text
   * ignoring case, unchanged; `None` exactly when no game matches.
   */
  function SearchIn(gamesSearched: GamesVec, text: string): (r: GameOpt)
    ensures r.game.None? <==>
      forall j :: 0 <= j < |gamesSearched.games| ==> !NameMatches(gamesSearched.games[j], text)
    ensures forall i :: 0 <= i < |gamesSearched.games| && NameMatches(gamesSearched.games[i], text)
              && (forall j :: 0 <= j < i ==> !NameMatches(gamesSearched.games[j], text))
              ==> r.game == Some(gamesSearched.games[i])
  {
    var index := Position(gamesSearched.games, text);
    var gameMatched := match index
      case Some(i) => Some(gamesSearched.games[i])
      case None => None;
    GameOpt(gameMatched)
  }

  /** A found game is one of the listed games, and its name matches. */
  lemma SearchInFound(gamesSearched: GamesVec, text: string)
    requires SearchIn(gamesSearched, text).game.Some?
    ensures SearchIn(gamesSearched, text).game.value in gamesSearched.games
    ensures NameMatches(SearchIn(gamesSearched, text).game.value, text)
  {
    var i := Position(gamesSearched.games, text).value;
    assert SearchIn(gamesSearched, text).game.value == gamesSearched.games[i];
  }

  /** Matching ignores case: "HALF-LIFE" is found under "half-life". */
  lemma SearchInIgnoresCase(g: Game)
    requires g.name == "HALF-LIFE"
    ensures SearchIn(GamesVec([g]), "half-life") == GameOpt(Some(g))
  {
    assert Lowercase("HALF-LIFE") == Lowercase("half-life");
  }
}
