/**
 * The scraper pipeline (app/scraper.py): the `Product` record, the bounded
 * retry around each page request, the extraction of one page's product cards
 * and the loop over pages 1..N.
 *
 * The network is an oracle: for a request and an attempt number it says
 * whether that attempt raised or what response it returned. A response is
 * given already split into its product cards (the `li.product` blocks in
 * document order), each with its three located elements.
 */
module Scraper {
  import opened Wrappers
  import opened Strings
  import opened Decimal
  import opened Utils

  /** A scraped product. The code never reassigns its fields after construction. */
  datatype Product = Product(productTitle: string, productPrice: real, pathToImage: string) {

    /** `Product.to_dict`: the three fields, unchanged, under their JSON keys. */
    function ToDict(): (d: map<string, JsonValue>)
      ensures d.Keys == {"product_title", "product_price", "path_to_image"}
      ensures d["product_title"] == JString(productTitle)
      ensures d["product_price"] == JNumber(productPrice)
      ensures d["path_to_image"] == JString(pathToImage)
    {
      map["product_title" := JString(productTitle),
          "product_price" := JNumber(productPrice),
          "path_to_image" := JString(pathToImage)]
    }
  }

  /** The JSON values a product dictionary holds. */
  datatype JsonValue = JString(s: string) | JNumber(n: real)

  /** The three keys `to_dict` writes. */
  const ProductKeys: set<string> := {"product_title", "product_price", "path_to_image"}

  /**
   * `Product(**item)` for the validating product model used when the stored
   * list is loaded back: the three keys, each holding a value of the kind
   * `to_dict` writes, make a product; any other key is ignored. A missing
   * key makes validation fail, which is `None` here.
   */
  function FromDict(d: map<string, JsonValue>): (r: Option<Product>)
    ensures r.Some? <==>
      ("product_title" in d && d["product_title"].JString? &&
       "product_price" in d && d["product_price"].JNumber? &&
       "path_to_image" in d && d["path_to_image"].JString?)
    ensures r.Some? ==> forall k :: k in r.value.ToDict() ==> k in d && d[k] == r.value.ToDict()[k]
  {
    if "product_title" in d && d["product_title"].JString? &&
       "product_price" in d && d["product_price"].JNumber? &&
       "path_to_image" in d && d["path_to_image"].JString?
    then Some(Product(d["product_title"].s, d["product_price"].n, d["path_to_image"].s))
    else None
  }

  /** A key other than the three is ignored when a product is loaded. */
  lemma ExtraKeyIgnored(p: Product, key: string, v: JsonValue)
    requires key !in ProductKeys
    ensures FromDict(p.ToDict()[key := v]) == Some(p)
  {
  }

  /** Loading what `to_dict` produced gives back the same product. */
  lemma ToDictRoundTrip(p: Product)
    ensures FromDict(p.ToDict()) == Some(p)
  {
  }

  /** A record with every field truthy and a title that is already stripped. */
  predicate WellFormed(p: Product) {
    p.productTitle != "" && Strip(p.productTitle) == p.productTitle &&
    p.productPrice != 0.0 && p.pathToImage != ""
  }

  /** One `li.product` block: the title link, the price amount and the thumbnail image, each possibly absent. */
  datatype Card = Card(title: Option<Element>, price: Option<Element>, image: Option<Element>)

  /** A response that did not raise: its status code and its product cards. */
  datatype Response = Response(statusCode: int, cards: seq<Card>)

  /** What one `requests.get` attempt produced: an exception, or a response. */
  datatype Attempt = RequestError | Answered(response: Response)

  /** The attempt returned and `raise_for_status` did not raise (no 4xx or 5xx status). */
  predicate Succeeded(a: Attempt): (ok: bool)
    ensures ok ==> a.Answered?
    ensures a.Answered? && 400 <= a.response.statusCode < 600 ==> !ok
    ensures a.Answered? && 200 <= a.response.statusCode < 300 ==> ok
  {
    a.Answered? && !(400 <= a.response.statusCode < 600)
  }

  /** What the scraper hands to `requests.get`. */
  datatype Request = Request(url: string, headers: map<string, string>,
                             proxies: Option<map<string, string>>)

  /** The outcome of attempt number `k` (from 0) of a request. */
  type Network = (Request, nat) -> Attempt

  const DefaultHeaders: map<string, string> := map["User-Agent" := "Mozilla/5.0"]

  /** The retry budget `scrape_page` uses. */
  const DefaultRetries: int := 3

  /** The same proxy for HTTP and HTTPS, or none when the proxy is absent or empty. */
  function Proxies(proxy: Option<string>): (r: Option<map<string, string>>)
    ensures r.Some? <==> proxy.Some? && proxy.value != ""
    ensures r.Some? ==>
      (r.value.Keys == {"http", "https"} && r.value["http"] == proxy.value && r.value["https"] == proxy.value)
  {
    if proxy.Some? && proxy.value != "" then Some(map["http" := proxy.value, "https" := proxy.value]) else None
  }

  /**
   * The address of one listing page: the base address, "page/", then a
   * non-empty page number, then a closing "/".
   */
  function PageUrl(baseUrl: string, page: int): (r: string)
    ensures |r| > |baseUrl| + 6
    ensures r[..|baseUrl| + 5] == baseUrl + "page/"
    ensures r[|r| - 1] == '/'
  {
    var r := baseUrl + "page/" + IntToString(page) + "/";
    assert r[..|baseUrl| + 5] == baseUrl + "page/";
    r
  }

  /** The page number a page address carries, if it is one. */
  function PageNumberOf(baseUrl: string, url: string): Option<int> {
    var prefix := baseUrl + "page/";
    if |url| > |prefix| && url[..|prefix|] == prefix && url[|url| - 1] == '/'
    then ParseInt(url[|prefix|..|url| - 1])
    else None
  }

  /** The page address starts with the base address and reads back as its page number. */
  lemma PageUrlRoundTrip(baseUrl: string, page: int)
    ensures PageUrl(baseUrl, page)[..|baseUrl|] == baseUrl
    ensures PageNumberOf(baseUrl, PageUrl(baseUrl, page)) == Some(page)
  {
    var prefix := baseUrl + "page/";
    var digits := IntToString(page);
    var url := PageUrl(baseUrl, page);
    assert url == prefix + digits + "/";
    assert |digits| > 0;
    assert url[..|prefix|] == prefix;
    assert url[|prefix|..|url| - 1] == digits;
    IntToStringRoundTrip(page);
  }

  /** Distinct pages are fetched from distinct addresses. */
  lemma PageUrlInjective(baseUrl: string, m: int, n: int)
    requires PageUrl(baseUrl, m) == PageUrl(baseUrl, n)
    ensures m == n
  {
    PageUrlRoundTrip(baseUrl, m);
    PageUrlRoundTrip(baseUrl, n);
  }

  /** The request `scrape_page` issues for a page. */
  function PageRequest(baseUrl: string, proxy: Option<string>, page: int): Request {
    Request(PageUrl(baseUrl, page), DefaultHeaders, Proxies(proxy))
  }

  /** The response of the first successful attempt among attempts `k` .. `retries - 1`. */
  function FetchFrom(req: Request, retries: int, net: Network, k: nat): Option<Response>
    decreases retries - k
  {
    if k >= retries then None
    else if Succeeded(net(req, k)) then Some(net(req, k).response)
    else FetchFrom(req, retries, net, k + 1)
  }

  /**
   * What a fetch with `retries` attempts returns: nothing when no attempt is
   * allowed, and otherwise, if anything, the response of an allowed attempt
   * that succeeded.
   */
  function Fetch(req: Request, retries: int, net: Network): (r: Option<Response>)
    ensures retries <= 0 ==> r.None?
    ensures r.Some? ==>
      exists k :: 0 <= k < retries && Succeeded(net(req, k)) && r.value == net(req, k).response
  {
    FetchFromSpec(req, retries, net, 0);
    FetchFrom(req, retries, net, 0)
  }

  lemma {:induction false} FetchFromSpec(req: Request, retries: int, net: Network, k: nat)
    ensures FetchFrom(req, retries, net, k).None? <==>
      (forall j :: k <= j < retries ==> !Succeeded(net(req, j)))
    ensures FetchFrom(req, retries, net, k).Some? ==>
      exists j :: k <= j < retries && Succeeded(net(req, j)) &&
        FetchFrom(req, retries, net, k).value == net(req, j).response &&
        (forall i :: k <= i < j ==> !Succeeded(net(req, i)))
    decreases retries - k
  {
    if k < retries && !Succeeded(net(req, k)) {
      FetchFromSpec(req, retries, net, k + 1);
      var r := FetchFrom(req, retries, net, k);
      if r.Some? {
        var j :| k + 1 <= j < retries && Succeeded(net(req, j)) &&
          r.value == net(req, j).response &&
          (forall i :: k + 1 <= i < j ==> !Succeeded(net(req, i)));
        assert forall i :: k <= i < j ==> !Succeeded(net(req, i));
      }
    } else if k < retries {
      assert Succeeded(net(req, k));
    }
  }

  /**
   * A fetch fails exactly when every one of the `retries` attempts fails
   * (so always when `retries <= 0`), and otherwise returns the response of
   * the first attempt that succeeds.
   */
  lemma FetchIsFirstSuccess(req: Request, retries: int, net: Network)
    ensures Fetch(req, retries, net).None? <==>
      (forall j :: 0 <= j < retries ==> !Succeeded(net(req, j)))
    ensures Fetch(req, retries, net).Some? ==>
      exists j :: 0 <= j < retries && Succeeded(net(req, j)) &&
        Fetch(req, retries, net).value == net(req, j).response &&
        (forall i :: 0 <= i < j ==> !Succeeded(net(req, i)))
  {
    FetchFromSpec(req, retries, net, 0);
  }

  /**
   * The product one card yields: one exactly when both checks pass, made of
   * the three cleaned values.
   */
  function ExtractProduct(card: Card, parseFloat: FloatParser): (r: Option<Product>)
    ensures r.Some? ==> WellFormed(r.value)
    ensures r.Some? <==>
      !RawFieldsMissing(card.title, card.price, card.image) &&
      !CleanedFieldsMissing(CleanName(card.title), CleanPrice(card.price, parseFloat), CleanImageUrl(card.image))
    ensures r.Some? ==>
      r.value == Product(CleanName(card.title), CleanPrice(card.price, parseFloat), CleanImageUrl(card.image).value)
  {
    if RawFieldsMissing(card.title, card.price, card.image) then None
    else
      var name := CleanName(card.title);
      var price := CleanPrice(card.price, parseFloat);
      var image := CleanImageUrl(card.image);
      if CleanedFieldsMissing(name, price, image) then None
      else
        StripIdempotent(card.title.value.text);
        Some(Product(name, price, image.value))
  }

  /** The products a page's cards yield, in document order. */
  function ExtractAll(cards: seq<Card>, parseFloat: FloatParser): (r: seq<Product>)
    ensures |r| <= |cards|
    ensures forall p :: p in r ==> WellFormed(p)
    decreases |cards|
  {
    if cards == [] then []
    else
      var last := ExtractProduct(cards[|cards| - 1], parseFloat);
      ExtractAll(cards[..|cards| - 1], parseFloat) + (if last.Some? then [last.value] else [])
  }

  /**
   * What `scrape_page` returns for a page: nothing when the fetch fails, and
   * otherwise at most one complete product per card.
   */
  function PageProducts(baseUrl: string, proxy: Option<string>, page: int, net: Network,
                        parseFloat: FloatParser): (r: seq<Product>)
    ensures Fetch(PageRequest(baseUrl, proxy, page), DefaultRetries, net).None? ==> r == []
    ensures Fetch(PageRequest(baseUrl, proxy, page), DefaultRetries, net).Some? ==>
      |r| <= |Fetch(PageRequest(baseUrl, proxy, page), DefaultRetries, net).value.cards|
    ensures forall p :: p in r ==> WellFormed(p)
  {
    match Fetch(PageRequest(baseUrl, proxy, page), DefaultRetries, net)
    case None => []
    case Some(response) => ExtractAll(response.cards, parseFloat)
  }

  /**
   * What `scrape` returns for pages 1..`pages`: nothing when `pages < 1`, and
   * never a partial record.
   */
  function ScrapedPages(baseUrl: string, proxy: Option<string>, pages: int, net: Network,
                        parseFloat: FloatParser): (r: seq<Product>)
    ensures pages < 1 ==> r == []
    ensures forall p :: p in r ==> WellFormed(p)
    decreases pages
  {
    if pages < 1 then []
    else ScrapedPages(baseUrl, proxy, pages - 1, net, parseFloat) +
         PageProducts(baseUrl, proxy, pages, net, parseFloat)
  }

  /** The values held by the `Some` entries of `os`, in order. */
  function Present<T>(os: seq<Option<T>>): seq<T>
    decreases |os|
  {
    if os == [] then []
    else Present(os[..|os| - 1]) + (if os[|os| - 1].Some? then [os[|os| - 1].value] else [])
  }

  /** The indices of the `Some` entries of `os`, in increasing order. */
  function PresentAt<T>(os: seq<Option<T>>): seq<int>
    decreases |os|
  {
    if os == [] then []
    else PresentAt(os[..|os| - 1]) + (if os[|os| - 1].Some? then [|os| - 1] else [])
  }

  /**
   * `idx` picks, in strictly increasing order, exactly the `Some` entries of
   * `os`, and `vs` lists the values they hold.
   */
  predicate PicksInOrder<T(==)>(idx: seq<int>, os: seq<Option<T>>, vs: seq<T>) {
    |idx| == |vs| &&
    (forall k :: 0 <= k < |idx| ==> 0 <= idx[k] < |os| && os[idx[k]] == Some(vs[k])) &&
    (forall k, l :: 0 <= k < l < |idx| ==> idx[k] < idx[l]) &&
    (forall i :: 0 <= i < |os| && os[i].Some? ==> i in idx)
  }

  /** Keeping the `Some` entries neither reorders, duplicates nor loses any of them. */
  lemma {:induction false} PresentInOrder<T>(os: seq<Option<T>>)
    ensures PicksInOrder(PresentAt(os), os, Present(os))
    decreases |os|
  {
    if os != [] {
      var n := |os|;
      var front := os[..n - 1];
      PresentInOrder(front);
      var idx := PresentAt(front);
      var before := Present(front);
      var idx' := PresentAt(os);
      var all := Present(os);
      assert idx' == if os[n - 1].Some? then idx + [n - 1] else idx;
      assert all == before + (if os[n - 1].Some? then [os[n - 1].value] else []);
      forall k | 0 <= k < |idx'|
        ensures 0 <= idx'[k] < n && os[idx'[k]] == Some(all[k])
      {
        if k < |idx| {
          assert idx'[k] == idx[k] && all[k] == before[k];
          assert os[idx[k]] == front[idx[k]];
        }
      }
      forall k, l | 0 <= k < l < |idx'|
        ensures idx'[k] < idx'[l]
      {
        if l < |idx| {
          assert idx'[k] == idx[k] && idx'[l] == idx[l];
        } else {
          assert idx'[k] == idx[k] < n - 1;
        }
      }
      forall i | 0 <= i < n && os[i].Some?
        ensures i in idx'
      {
        if i < n - 1 {
          assert os[i] == front[i];
          assert i in idx;
        }
      }
    }
  }

  /** What each card of a page yields, card by card. */
  function Outcomes(cards: seq<Card>, parseFloat: FloatParser): seq<Option<Product>> {
    seq(|cards|, i requires 0 <= i < |cards| => ExtractProduct(cards[i], parseFloat))
  }

  lemma {:induction false} ExtractAllIsPresent(cards: seq<Card>, parseFloat: FloatParser)
    ensures ExtractAll(cards, parseFloat) == Present(Outcomes(cards, parseFloat))
    decreases |cards|
  {
    if cards != [] {
      var front := cards[..|cards| - 1];
      ExtractAllIsPresent(front, parseFloat);
      assert Outcomes(cards, parseFloat)[..|cards| - 1] == Outcomes(front, parseFloat);
    }
  }

  /**
   * The products of a page are the products of exactly those cards that pass
   * both checks, in document order: no card is reordered, duplicated or lost.
   */
  lemma ExtractAllKeepsDocumentOrder(cards: seq<Card>, parseFloat: FloatParser)
    ensures |Outcomes(cards, parseFloat)| == |cards|
    ensures forall i :: 0 <= i < |cards| ==> Outcomes(cards, parseFloat)[i] == ExtractProduct(cards[i], parseFloat)
    ensures PicksInOrder(PresentAt(Outcomes(cards, parseFloat)), Outcomes(cards, parseFloat),
                         ExtractAll(cards, parseFloat))
  {
    PresentInOrder(Outcomes(cards, parseFloat));
    ExtractAllIsPresent(cards, parseFloat);
  }

  /** A card with an absent element yields nothing. */
  lemma CardWithAbsentElementIsSkipped(card: Card, parseFloat: FloatParser)
    requires card.title.None? || card.price.None? || card.image.None?
    ensures ExtractProduct(card, parseFloat).None?
  {
  }

  /** A card whose price text does not parse gets the sentinel 0.0 and yields nothing. */
  lemma UnparsablePriceIsSkipped(card: Card, parseFloat: FloatParser)
    requires card.price.Some? && parseFloat(StripPriceText(card.price.value.text)).None?
    ensures ExtractProduct(card, parseFloat).None?
  {
  }

  /** A card whose price text is only currency glyphs and spaces yields nothing. */
  lemma GlyphOnlyPriceIsSkipped(card: Card, parseFloat: FloatParser)
    requires card.price.Some? && GlyphsAndSpaces(card.price.value.text)
    requires parseFloat("") == None
    ensures ExtractProduct(card, parseFloat).None?
  {
    GlyphOnlyPriceIsSentinel(card.price.value.text, card.price.value.attrs, parseFloat);
  }

  /**
   * A card whose image has no `data-lazy-src` attribute is still emitted when
   * its title and price are good, with the text "None" as its image path.
   */
  lemma MissingLazySrcIsEmitted(card: Card, parseFloat: FloatParser)
    requires card.title.Some? && card.price.Some? && card.image.Some?
    requires !AllSpace(card.title.value.text)
    requires CleanPrice(card.price, parseFloat) != 0.0
    requires LazySrc !in card.image.value.attrs
    ensures ExtractProduct(card, parseFloat) ==
      Some(Product(Strip(card.title.value.text), CleanPrice(card.price, parseFloat), NoneText))
  {
    BlankNameIsEmpty(card.title.value);
  }

  /**
   * A card whose three elements are present, whose title is not blank, whose
   * price is non-zero and whose image path is not empty is emitted, with its
   * stripped title, its price and its image path.
   */
  lemma GoodCardIsEmitted(card: Card, parseFloat: FloatParser)
    requires card.title.Some? && card.price.Some? && card.image.Some?
    requires !AllSpace(card.title.value.text)
    requires CleanPrice(card.price, parseFloat) != 0.0
    requires CleanImageUrl(card.image).value != ""
    ensures ExtractProduct(card, parseFloat) ==
      Some(Product(Strip(card.title.value.text), CleanPrice(card.price, parseFloat), CleanImageUrl(card.image).value))
  {
    BlankNameIsEmpty(card.title.value);
  }

  /** A page whose fetch fails after every attempt contributes no product. */
  lemma FailedPageIsEmpty(baseUrl: string, proxy: Option<string>, page: int, net: Network,
                          parseFloat: FloatParser)
    requires forall k :: 0 <= k < DefaultRetries ==> !Succeeded(net(PageRequest(baseUrl, proxy, page), k))
    ensures PageProducts(baseUrl, proxy, page, net, parseFloat) == []
  {
    FetchIsFirstSuccess(PageRequest(baseUrl, proxy, page), DefaultRetries, net);
  }

  /**
   * The products of the first `m` pages come first, in the same order, in the
   * products of the first `n >= m` pages.
   */
  lemma {:induction false} ScrapedPagesExtend(baseUrl: string, proxy: Option<string>, m: int, n: int,
                                              net: Network, parseFloat: FloatParser)
    requires m <= n
    ensures var prefix := ScrapedPages(baseUrl, proxy, m, net, parseFloat);
      var all := ScrapedPages(baseUrl, proxy, n, net, parseFloat);
      |prefix| <= |all| && all[..|prefix|] == prefix
    decreases n - m
  {
    if m < n && n >= 1 {
      ScrapedPagesExtend(baseUrl, proxy, m, n - 1, net, parseFloat);
      var prefix := ScrapedPages(baseUrl, proxy, m, net, parseFloat);
      var before := ScrapedPages(baseUrl, proxy, n - 1, net, parseFloat);
      var all := ScrapedPages(baseUrl, proxy, n, net, parseFloat);
      assert all[..|before|] == before;
      assert all[..|prefix|] == before[..|prefix|];
    }
  }

  /** Every scraped product comes from one of the pages 1..`pages`. */
  lemma {:induction false} ScrapedProductHasPage(baseUrl: string, proxy: Option<string>, pages: int,
                                                 net: Network, parseFloat: FloatParser, p: Product)
    requires p in ScrapedPages(baseUrl, proxy, pages, net, parseFloat)
    ensures exists page :: 1 <= page <= pages && p in PageProducts(baseUrl, proxy, page, net, parseFloat)
    decreases pages
  {
    if p !in PageProducts(baseUrl, proxy, pages, net, parseFloat) {
      ScrapedProductHasPage(baseUrl, proxy, pages - 1, net, parseFloat, p);
    }
  }

  /** A page whose fetch fails leaves the accumulated products as they were. */
  lemma FailedPageAddsNothing(baseUrl: string, proxy: Option<string>, pages: int, net: Network,
                              parseFloat: FloatParser)
    requires pages >= 1
    requires forall k :: 0 <= k < DefaultRetries ==> !Succeeded(net(PageRequest(baseUrl, proxy, pages), k))
    ensures ScrapedPages(baseUrl, proxy, pages, net, parseFloat) ==
      ScrapedPages(baseUrl, proxy, pages - 1, net, parseFloat)
  {
    FailedPageIsEmpty(baseUrl, proxy, pages, net, parseFloat);
  }

  /**
   * The scraper of one site. Its fields are set once, at construction; the
   * network and the float parser it relies on are passed to each call.
   */
  class Scraper {
    const baseUrl: string
    const proxy: Option<string>
    const headers: map<string, string> := DefaultHeaders

    constructor (baseUrl: string, proxy: Option<string>)
      ensures this.baseUrl == baseUrl && this.proxy == proxy && headers == DefaultHeaders
    {
      this.baseUrl := baseUrl;
      this.proxy := proxy;
    }

    /**
     * `retry_request`: up to `retries` attempts, stopping at the first that
     * succeeds. `attempts` counts the attempts made.
     */
    method RetryRequest(url: string, retries: int, net: Network)
      returns (response: Option<Response>, ghost attempts: nat)
      ensures response == Fetch(Request(url, headers, Proxies(proxy)), retries, net)
      ensures attempts <= (if retries < 0 then 0 else retries)
      ensures response.None? ==> attempts == (if retries < 0 then 0 else retries)
      ensures response.Some? ==>
        (1 <= attempts &&
         Succeeded(net(Request(url, headers, Proxies(proxy)), attempts - 1)) &&
         response.value == net(Request(url, headers, Proxies(proxy)), attempts - 1).response &&
         forall k :: 0 <= k < attempts - 1 ==> !Succeeded(net(Request(url, headers, Proxies(proxy)), k)))
    {
      var req := Request(url, headers, Proxies(proxy));
      var attempt: nat := 0;
      while attempt < retries
        invariant retries >= 0 ==> attempt <= retries
        invariant retries < 0 ==> attempt == 0
        invariant FetchFrom(req, retries, net, attempt) == Fetch(req, retries, net)
        invariant forall k :: 0 <= k < attempt ==> !Succeeded(net(req, k))
        decreases retries - attempt
      {
        var outcome := net(req, attempt);
        if Succeeded(outcome) {
          return Some(outcome.response), attempt + 1;
        }
        attempt := attempt + 1;
      }
      return None, attempt;
    }

    /**
     * `scrape_page`: fetch the page with three attempts, then keep, in
     * document order, the cards that pass both checks.
     */
    method ScrapePage(pageNumber: int, net: Network, parseFloat: FloatParser)
      returns (products: seq<Product>)
      ensures products == PageProducts(baseUrl, proxy, pageNumber, net, parseFloat)
    {
      var url := PageUrl(baseUrl, pageNumber);
      var response, tries := RetryRequest(url, DefaultRetries, net);
      if response.None? {
        return [];
      }
      var cards := response.value.cards;
      products := [];
      for i := 0 to |cards|
        invariant products == ExtractAll(cards[..i], parseFloat)
      {
        assert cards[..i + 1][..i] == cards[..i];
        var card := cards[i];
        var skip, warning := CheckMissingElements(pageNumber, card.title, card.price, card.image);
        if skip {
          continue;
        }
        var productPrice := CleanPrice(card.price, parseFloat);
        var productName := CleanName(card.title);
        var imageUrl := CleanImageUrl(card.image);
        var skipAfter, warningAfter := CheckMissingElementsAfterConversion(pageNumber, productName, productPrice, imageUrl);
        if skipAfter {
          continue;
        }
        if productName != "" && productPrice != 0.0 && imageUrl.Some? && imageUrl.value != "" {
          products := products + [Product(productName, productPrice, imageUrl.value)];
        } else {
          assert false;
        }
      }
      assert cards[..|cards|] == cards;
    }

    /** `scrape`: the products of pages 1..`pages`, page after page. */
    method Scrape(pages: int, net: Network, parseFloat: FloatParser)
      returns (allProducts: seq<Product>)
      ensures allProducts == ScrapedPages(baseUrl, proxy, pages, net, parseFloat)
    {
      allProducts := [];
      var page := 1;
      while page <= pages
        invariant pages >= 1 ==> 1 <= page <= pages + 1
        invariant pages < 1 ==> page == 1
        invariant allProducts == ScrapedPages(baseUrl, proxy, page - 1, net, parseFloat)
        decreases pages - page
      {
        var products := ScrapePage(page, net, parseFloat);
        allProducts := allProducts + products;
        page := page + 1;
      }
    }
  }
}
