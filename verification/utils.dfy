/**
 * Field cleaning and validation (app/utils.py): the three `CleanData`
 * cleaners that turn located elements into typed values, and the two
 * checks that decide, before and after cleaning, whether a product is
 * skipped.
 */
module Utils {
  import opened Wrappers
  import opened Strings

  /**
   * A located HTML element: its text and its attributes. An element that the
   * selector did not find is `None` in an `Option<Element>`.
   */
  datatype Element = Element(text: string, attrs: map<string, string>)

  /**
   * The currency glyph that price cleaning deletes, exactly as it is spelled
   * in the code: the three characters U+00E2 U+201A U+00B9 (the UTF-8 bytes
   * of the rupee sign U+20B9 read as Windows-1252).
   */
  const CurrencyGlyph: string := "\U{E2}\U{201A}\U{B9}"

  /** The rupee sign as a correctly decoded page carries it. */
  const RupeeSign: char := '\U{20B9}'

  /** The attribute that carries the lazily loaded image address. */
  const LazySrc: string := "data-lazy-src"

  /** What Python's `str(None)` evaluates to. */
  const NoneText: string := "None"

  /**
   * Python's `float(s)`: the parsed value, or `None` where it raises
   * `ValueError`. Its grammar is not part of this model.
   */
  type FloatParser = string -> Option<real>

  /**
   * The price text once the glyph and then every space have been replaced by
   * "": the glyph pass's result with every space deleted and the other
   * characters kept in order.
   */
  function StripPriceText(text: string): (r: string)
    ensures ' ' !in r
    ensures |r| <= |text|
    ensures r == Without(RemoveAll(text, CurrencyGlyph), ' ')
  {
    var noGlyph := RemoveAll(text, CurrencyGlyph);
    RemoveCharIsWithout(noGlyph, ' ');
    RemoveAll(noGlyph, " ")
  }

  /**
   * `CleanData.price`: the parsed price, or the sentinel 0.0 when the
   * element is absent or its text does not parse.
   */
  function CleanPrice(price: Option<Element>, parseFloat: FloatParser): (r: real)
    ensures price.None? ==> r == 0.0
    ensures price.Some? && parseFloat(StripPriceText(price.value.text)).None? ==> r == 0.0
    ensures r != 0.0 ==> price.Some? && parseFloat(StripPriceText(price.value.text)) == Some(r)
    ensures price.Some? && parseFloat(StripPriceText(price.value.text)).Some? ==>
      r == parseFloat(StripPriceText(price.value.text)).value
  {
    match price
    case None => 0.0
    case Some(e) => parseFloat(StripPriceText(e.text)).GetOr(0.0)
  }

  /** `CleanData.name`: the text without surrounding whitespace, or "" for an absent element. */
  function CleanName(name: Option<Element>): (r: string)
    ensures name.None? ==> r == ""
    ensures name.Some? ==> r == Strip(name.value.text)
    ensures r == [] || (!IsSpace(r[0]) && !IsSpace(r[|r| - 1]))
  {
    match name
    case None => ""
    case Some(e) => Strip(e.text)
  }

  /**
   * `CleanData.image_url`: `str(image.get("data-lazy-src"))`, which is the
   * text "None" when the attribute is missing, or `None` for an absent element.
   */
  function CleanImageUrl(image: Option<Element>): (r: Option<string>)
    ensures r.None? <==> image.None?
    ensures image.Some? && LazySrc in image.value.attrs ==> r == Some(image.value.attrs[LazySrc])
    ensures image.Some? && LazySrc !in image.value.attrs ==> r == Some(NoneText)
  {
    match image
    case None => None
    case Some(e) => Some(if LazySrc in e.attrs then e.attrs[LazySrc] else NoneText)
  }

  /** The three required fields, named as the warnings name them. */
  datatype Field = Title | Price | Image

  function Rank(f: Field): nat {
    match f
    case Title => 0
    case Price => 1
    case Image => 2
  }

  /** The missing fields, listed in the order Title, Price, Image. */
  function MissingFields(titleMissing: bool, priceMissing: bool, imageMissing: bool): seq<Field> {
    (if titleMissing then [Title] else []) +
    (if priceMissing then [Price] else []) +
    (if imageMissing then [Image] else [])
  }

  /**
   * The warning a check logs before a product is skipped: the page, whether
   * all three fields were missing, and the list of missing fields.
   */
  datatype SkipWarning = SkipWarning(page: int, allMissing: bool, missing: seq<Field>)

  /** Pre-validation: some located element is absent. */
  predicate RawFieldsMissing(name: Option<Element>, price: Option<Element>, image: Option<Element>) {
    name.None? || price.None? || image.None?
  }

  /** Post-validation: some cleaned value is falsy in Python's sense. */
  predicate CleanedFieldsMissing(name: string, price: real, image: Option<string>) {
    name == "" || price == 0.0 || image.None? || image.value == ""
  }

  /**
   * `check_missing_elements`: true when an element is absent, together with
   * the warning logged in that case.
   */
  method CheckMissingElements(page: int, productName: Option<Element>, productPrice: Option<Element>,
                              imageUrl: Option<Element>)
    returns (skip: bool, warning: Option<SkipWarning>)
    ensures skip <==> RawFieldsMissing(productName, productPrice, imageUrl)
    ensures var missing := MissingFields(productName.None?, productPrice.None?, imageUrl.None?);
      warning == if skip then Some(SkipWarning(page, |missing| == 3, missing)) else None
  {
    var missing: seq<Field> := [];
    if productName.None? {
      missing := missing + [Title];
    }
    if productPrice.None? {
      missing := missing + [Price];
    }
    if imageUrl.None? {
      missing := missing + [Image];
    }
    assert missing == MissingFields(productName.None?, productPrice.None?, imageUrl.None?);
    if missing != [] {
      if |missing| == 3 {
        warning := Some(SkipWarning(page, true, missing));
      } else {
        warning := Some(SkipWarning(page, false, missing));
      }
      return true, warning;
    }
    return false, None;
  }

  /**
   * `check_missing_elements_after_conversion`: true when a cleaned value is
   * falsy (an empty name, a zero price, no image or an empty image string),
   * together with the warning logged in that case.
   */
  method CheckMissingElementsAfterConversion(page: int, productName: string, productPrice: real,
                                             imageUrl: Option<string>)
    returns (skip: bool, warning: Option<SkipWarning>)
    ensures skip <==> CleanedFieldsMissing(productName, productPrice, imageUrl)
    ensures var missing := MissingFields(productName == "", productPrice == 0.0,
                                         imageUrl.None? || imageUrl.value == "");
      warning == if skip then Some(SkipWarning(page, |missing| == 3, missing)) else None
  {
    var missing: seq<Field> := [];
    if productName == "" {
      missing := missing + [Title];
    }
    if productPrice == 0.0 {
      missing := missing + [Price];
    }
    if imageUrl.None? || imageUrl.value == "" {
      missing := missing + [Image];
    }
    assert missing == MissingFields(productName == "", productPrice == 0.0, imageUrl.None? || imageUrl.value == "");
    if missing != [] {
      if |missing| == 3 {
        warning := Some(SkipWarning(page, true, missing));
      } else {
        warning := Some(SkipWarning(page, false, missing));
      }
      return true, warning;
    }
    return false, None;
  }

  /**
   * The list of missing fields names exactly the missing ones, in the order
   * Title, Price, Image, and is empty exactly when nothing is missing; it has
   * three entries exactly when all three are missing.
   */
  lemma MissingFieldsOrdered(t: bool, p: bool, i: bool)
    ensures var m := MissingFields(t, p, i);
      (Title in m <==> t) && (Price in m <==> p) && (Image in m <==> i) &&
      (forall a, b :: 0 <= a < b < |m| ==> Rank(m[a]) < Rank(m[b])) &&
      (m == [] <==> !t && !p && !i) &&
      (|m| == 3 <==> t && p && i)
  {
  }

  /** A string made only of currency glyphs and spaces. */
  predicate GlyphsAndSpaces(s: string)
    decreases |s|
  {
    s == [] ||
    (s[0] == ' ' && GlyphsAndSpaces(s[1..])) ||
    (|s| >= |CurrencyGlyph| && s[..|CurrencyGlyph|] == CurrencyGlyph &&
     GlyphsAndSpaces(s[|CurrencyGlyph|..]))
  }

  lemma {:induction false} GlyphRemovalLeavesSpaces(s: string)
    requires GlyphsAndSpaces(s)
    ensures forall k :: 0 <= k < |RemoveAll(s, CurrencyGlyph)| ==> RemoveAll(s, CurrencyGlyph)[k] == ' '
    decreases |s|
  {
    var g := CurrencyGlyph;
    if s == [] {
    } else if s[0] == ' ' && GlyphsAndSpaces(s[1..]) {
      GlyphRemovalLeavesSpaces(s[1..]);
      if |s| >= |g| {
        assert s[..|g|][0] != g[0];
      }
      RemoveAllKeepsHead(s, g);
    } else {
      GlyphRemovalLeavesSpaces(s[|g|..]);
      RemoveAllDropsHead(s, g);
    }
  }

  /**
   * A price text made only of currency glyphs and spaces is cleaned to the
   * empty string, so price cleaning returns the sentinel 0.0 whenever the
   * parser rejects "" (as `float("")` does).
   */
  lemma GlyphOnlyPriceIsSentinel(text: string, attrs: map<string, string>, parseFloat: FloatParser)
    requires GlyphsAndSpaces(text)
    requires parseFloat("") == None
    ensures StripPriceText(text) == ""
    ensures CleanPrice(Some(Element(text, attrs)), parseFloat) == 0.0
  {
    var noGlyph := RemoveAll(text, CurrencyGlyph);
    GlyphRemovalLeavesSpaces(text);
    RemoveCharIsWithout(noGlyph, ' ');
    WithoutOnly(noGlyph, ' ');
  }

  /**
   * A glyph at the front of the price text is deleted before parsing: the
   * instance of `GlyphSplit` with nothing before the glyph.
   */
  lemma LeadingGlyphIsDropped(t: string)
    ensures StripPriceText(CurrencyGlyph + t) == StripPriceText(t)
  {
    var s := CurrencyGlyph + t;
    assert s[..|CurrencyGlyph|] == CurrencyGlyph;
    assert s[|CurrencyGlyph|..] == t;
  }

  /**
   * `replace` deletes every glyph that stands in the text: the glyph's three
   * characters all differ, so no occurrence can overlap another, and the
   * text on either side of an occurrence is cleaned on its own.
   */
  lemma GlyphSplit(u: string, t: string)
    ensures RemoveAll(u + CurrencyGlyph + t, CurrencyGlyph) ==
      RemoveAll(u, CurrencyGlyph) + RemoveAll(t, CurrencyGlyph)
  {
    var g := CurrencyGlyph;
    assert g[0] !in g[1..] by {
      assert g[1..] == [g[1], g[2]];
    }
    RemoveAllSplit(u, g, t);
  }

  /**
   * `replace` makes a single pass, so deleting one glyph can bring two
   * fragments together into a new glyph that stays in the text.
   */
  lemma GlyphCanReappear()
    ensures RemoveAll([CurrencyGlyph[0]] + CurrencyGlyph + CurrencyGlyph[1..], CurrencyGlyph) == CurrencyGlyph
  {
    var g := CurrencyGlyph;
    var s := [g[0]] + g + g[1..];
    assert s[..|g|] != g by { assert s[1] == g[0] != g[1]; }
    assert s[1..][..|g|] == g;
    assert s[1..][|g|..] == g[1..];
    assert RemoveAll(s[1..], g) == RemoveAll(g[1..], g) == g[1..];
    assert RemoveAll(s, g) == [g[0]] + g[1..];
  }

  /**
   * The correctly decoded rupee sign is not the glyph the code deletes: a
   * price text that starts with it keeps it, and is handed to the parser
   * unchanged.
   */
  lemma RupeeSignIsKept(t: string)
    requires ' ' !in t && !Occurs(CurrencyGlyph, t)
    ensures StripPriceText([RupeeSign] + t) == [RupeeSign] + t
  {
    var s := [RupeeSign] + t;
    OccursAfterHead(CurrencyGlyph, RupeeSign, t);
    RemoveAllAbsent(s, CurrencyGlyph);
    RemoveCharIsWithout(s, ' ');
    WithoutAbsent(s, ' ');
  }

  /** Cleaning a name that has already been cleaned changes nothing. */
  lemma CleanNameIdempotent(name: Option<Element>, attrs: map<string, string>)
    ensures CleanName(Some(Element(CleanName(name), attrs))) == CleanName(name)
  {
    if name.Some? {
      StripIdempotent(name.value.text);
    }
  }

  /** A present name is rejected after cleaning exactly when its text is all whitespace. */
  lemma BlankNameIsEmpty(e: Element)
    ensures CleanName(Some(e)) == "" <==> AllSpace(e.text)
  {
    StripEmptyIffBlank(e.text);
  }

  /**
   * An image element without the lazy-load attribute cleans to the non-empty
   * text "None", which post-validation does not count as missing.
   */
  lemma MissingLazySrcIsNotMissing(image: Element, name: string, price: real)
    requires LazySrc !in image.attrs
    requires name != "" && price != 0.0
    ensures CleanImageUrl(Some(image)) == Some(NoneText)
    ensures !CleanedFieldsMissing(name, price, CleanImageUrl(Some(image)))
  {
  }
}
