# Product scraper pipeline, modelled in Dafny

This project models the extraction pipeline of a small product scraper. The scraper fetches the numbered listing pages of one shop. It retries each request a bounded number of times and turns every product card on a page into a record with a title, a price and an image path. A card becomes a record only when two checks pass: one on the located elements and one on the cleaned values.

Modules:

- `Wrappers` (`wrappers.dfy`): `Option`, standing for Python's `Optional`.
- `Strings` (`strings.dfy`): Python's `str.strip()` with Python's whitespace set, and `str.replace(pat, "")` as one left-to-right scan.
- `Decimal` (`decimal.dfy`): `str(n)` for the page number, and a reader that undoes it.
- `Utils` (`utils.dfy`, from `app/utils.py`): the three `CleanData` cleaners and the two checks.
  - The checks build the list of missing fields by successive appends, as the code does.
  - The warning a check would log is returned as a value: `SkipWarning` holds the page, whether all three fields were missing, and the list.
- `Scraper` (`scraper.dfy`, from `app/scraper.py`):
  - the `Product` record and its `to_dict`;
  - the `Scraper` class, whose `RetryRequest`, `ScrapePage` and `Scrape` methods keep the code's loops;
  - the functions `Fetch`, `ExtractAll`, `PageProducts` and `ScrapedPages`. Each method is proved equal to one of these, and the lemmas state properties of the functions.

External parts and how they appear:

- **Network.** It is an oracle `Network = (Request, nat) -> Attempt`: given the request and the attempt number, it returns either a raised `requests.RequestException` or a response. Other exceptions, which the code does not catch, are not modelled. `raise_for_status` raises exactly for a status from 400 to 599. The `Request` carries the URL, the `User-Agent` header and the proxy map. The code builds that map only for a non-empty proxy string.
- **HTML.** A response arrives already split into its `li.product` cards, in document order. Each card holds three optional `Element`s, and an `Element` has a text and an attribute map. A present bs4 tag is always truthy, so pre-validation means "some element is absent".
- **Float parsing.** `float()` is the parameter `parseFloat: string -> Option<real>`. It returns `None` wherever `float()` raises `ValueError`.

Behaviour of the code worth noting, all of it modelled as written:

- **Image without the attribute.** `CleanData.image_url` is annotated `Optional[str]`. Yet when the `data-lazy-src` attribute is missing it returns `str(None)`, the text `"None"`, not `None`. Such a card is therefore emitted with the image path `"None"` (`MissingLazySrcIsEmitted`).
- **The currency glyph.** `app/utils.py:26` does not hold the rupee sign U+20B9. It holds the three characters U+00E2 U+201A U+00B9. `RupeeSignIsKept` shows that a correctly decoded rupee sign reaches the parser untouched.
- **`replace` is one pass.** The glyph's three characters all differ, so two occurrences cannot overlap. Every glyph that stands in the element text is therefore deleted (`GlyphSplit`), and every space is deleted too (`RemoveCharIsWithout`). Deleting a glyph can still join two fragments into a new glyph, which then stays in the text handed to `float()` (`GlyphCanReappear`).
- **Negative prices.** A negative price that parses is truthy, so it is kept. Records only promise a non-zero price, not a non-negative one.
- **No request timeout.** `requests.get` is called without `timeout=` (`app/scraper.py:55-59`), so a real attempt can block forever. Each attempt of the model always ends, so `RetryRequest` ending after at most `retries` attempts holds for the model, not for the code.
- **A third check that never fails.** `scrape_page` re-checks `productName and productPrice and imageURL` after post-validation has already passed. The model proves that this check's `else` branch cannot be reached.

## Model

| member | source | states |
|---|---|---|
| `Strings.Strip` | app/utils.py:45 | `strip()` never lengthens the text and leaves no whitespace at either end |
| `Strings.StripIsInnerSlice` | app/utils.py:45 | `strip()` returns the slice between the leading and the trailing whitespace runs, and that slice neither starts nor ends with whitespace |
| `Strings.StripIdempotent` | app/utils.py:45 | stripping an already stripped string changes nothing |
| `Strings.StripEmptyIffBlank` | app/utils.py:45 | the stripped name is empty exactly when the text is all whitespace |
| `Strings.RemoveAll` | app/utils.py:26 | `replace(pat, "")` only deletes: the result is a subsequence of the input (characters deleted, the rest kept in order), so it is no longer and its characters are a sub-multiset of the input's |
| `Strings.RemoveAllSplit` | app/utils.py:26 | for a pattern whose first character occurs nowhere else in it, `replace` deletes any given occurrence and cleans the text on either side of it independently |
| `Strings.RemoveCharIsWithout` | app/utils.py:26 | `replace(" ", "")` deletes every space and keeps every other character in order |
| `Strings.RemoveAllAbsent` | app/utils.py:26 | a text without the pattern comes back unchanged |
| `Decimal.IntToString` | app/scraper.py:78 | `str(page)` is non-empty, starts with a minus sign exactly for a negative page, is otherwise made of digits, and has no leading zero ("0" alone excepted) |
| `Decimal.IntToStringRoundTrip` | app/scraper.py:78 | `str(page)` reads back as `page`, negative numbers included |
| `Decimal.IntToStringInjective` | app/scraper.py:78 | distinct page numbers have distinct decimal forms |
| `Utils.StripPriceText` | app/utils.py:26 | the text handed to `float()` is the glyph pass's result with every space deleted and every other character kept in order; it contains no space and is no longer than the element text |
| `Utils.CleanPrice` | app/utils.py:25-31 | a text that parses gives the parsed value; an absent element or a text that does not parse gives the sentinel 0.0; so any non-zero price is the parse of the stripped text |
| `Utils.GlyphOnlyPriceIsSentinel` | app/utils.py:25-31 | a price text made only of glyphs and spaces strips to "" and cleans to 0.0 |
| `Utils.GlyphSplit` | app/utils.py:26 | every glyph standing in the price text is deleted: the text before it and the text after it are cleaned independently and joined |
| `Utils.LeadingGlyphIsDropped` | app/utils.py:26 | a glyph at the front of the price text does not reach the parser |
| `Utils.GlyphCanReappear` | app/utils.py:26 | the single-pass replace can leave a glyph that it formed by deleting another |
| `Utils.RupeeSignIsKept` | app/utils.py:26 | a price written with U+20B9 and no spaces reaches the parser unchanged |
| `Utils.CleanName` | app/utils.py:44-50 | a present element gives its text stripped, an absent one gives "", and a cleaned name neither starts nor ends with whitespace |
| `Utils.CleanNameIdempotent` | app/utils.py:45 | cleaning an already cleaned name changes nothing |
| `Utils.BlankNameIsEmpty` | app/utils.py:45 | a present title cleans to "" exactly when its text is all whitespace |
| `Utils.CleanImageUrl` | app/utils.py:63-69 | absent exactly for an absent element, otherwise the attribute value, or the text "None" when the attribute is missing |
| `Utils.MissingLazySrcIsNotMissing` | app/utils.py:64 | the "None" image text counts as present in post-validation |
| `Utils.CheckMissingElements` | app/utils.py:72-104 | skip exactly when an element is absent; the warning lists the missing fields in order Title, Price, Image and marks whether all three are missing |
| `Utils.CheckMissingElementsAfterConversion` | app/utils.py:107-141 | skip exactly when the name is empty, the price is 0.0, or the image is absent or empty; same warning shape |
| `Utils.MissingFieldsOrdered` | app/utils.py:85-103 | the list names exactly the missing fields, in strictly increasing Title, Price, Image order; it is empty exactly when none is missing and has three entries exactly when all are missing |
| `Scraper.Product.ToDict` | app/scraper.py:22-30 | the keys are exactly `product_title`, `product_price` and `path_to_image`, each holding its field unchanged |
| `Scraper.FromDict` | app/storage.py:46 | a dictionary loads exactly when the three keys are present with values of the kinds `to_dict` writes; the loaded product's `to_dict` agrees with the dictionary on those keys |
| `Scraper.ExtraKeyIgnored` | app/storage.py:46 | a key other than the three is ignored when a stored product is loaded |
| `Scraper.ToDictRoundTrip` | app/storage.py:46 | loading a dictionary written by `to_dict` gives back the same product |
| `Scraper.Proxies` | app/scraper.py:58 | a proxy map is sent exactly for a non-empty proxy, with the same address for http and https |
| `Scraper.Succeeded` | app/scraper.py:60 | an attempt succeeds only if it returned; a 4xx or 5xx status makes `raise_for_status` fail it, and a 2xx status passes |
| `Scraper.PageUrl` | app/scraper.py:78 | the page URL is the base URL, then `page/`, then a non-empty page number, then a closing `/` |
| `Scraper.PageUrlRoundTrip` | app/scraper.py:78 | the page URL starts with the base URL and reads back as its page number |
| `Scraper.PageUrlInjective` | app/scraper.py:78 | distinct pages are fetched from distinct URLs |
| `Scraper.Fetch` | app/scraper.py:53-66 | no attempt allowed means no response; a response that is returned is that of an allowed attempt that succeeded |
| `Scraper.FetchIsFirstSuccess` | app/scraper.py:53-66 | the fetch fails exactly when all `retries` attempts fail (always when `retries <= 0`), and otherwise returns the response of the first attempt that succeeds |
| `Scraper.Scraper.RetryRequest` | app/scraper.py:41-66 | returns the fetch result after at most `max(retries, 0)` attempts, all of them on failure; on success the last attempt succeeded, every earlier one failed, and its response is returned |
| `Scraper.ExtractProduct` | app/scraper.py:88-109 | a card yields a product exactly when no element is absent and no cleaned value is falsy; the product holds the cleaned name, price and image path, with every field truthy and the title stripped |
| `Scraper.GoodCardIsEmitted` | app/scraper.py:93-107 | a card with all three elements, a non-blank title, a non-zero price and a non-empty image path is emitted with its stripped title, price and image path |
| `Scraper.ExtractAll` | app/scraper.py:86-107 | a page yields at most one product per card, every one of them complete |
| `Scraper.PresentInOrder` | app/scraper.py:88-107 | keeping the cards that yield something neither reorders, duplicates nor loses any of them |
| `Scraper.ExtractAllKeepsDocumentOrder` | app/scraper.py:85-107 | the products are those of exactly the cards that pass both checks, in strictly increasing card order |
| `Scraper.CardWithAbsentElementIsSkipped` | app/scraper.py:93-95 | a card with an absent element yields nothing |
| `Scraper.UnparsablePriceIsSkipped` | app/scraper.py:97-103 | a card whose price text does not parse yields nothing |
| `Scraper.GlyphOnlyPriceIsSkipped` | app/scraper.py:97-103 | a card whose price is only glyphs and spaces yields nothing |
| `Scraper.MissingLazySrcIsEmitted` | app/scraper.py:99-107 | a good card whose image lacks `data-lazy-src` is emitted with the image path "None" |
| `Scraper.FailedPageIsEmpty` | app/scraper.py:79-82 | a page whose three attempts all fail yields the empty list |
| `Scraper.PageProducts` | app/scraper.py:68-112 | a page whose fetch fails yields []; otherwise it yields no more products than it has cards, all of them complete |
| `Scraper.Scraper.ScrapePage` | app/scraper.py:68-112 | returns the extraction of the fetched page's cards, or [] when the fetch fails |
| `Scraper.Scraper.Scrape` | app/scraper.py:114-130 | returns the concatenation of the results for pages 1..`pages`, in page order; [] when `pages < 1` |
| `Scraper.ScrapedPages` | app/scraper.py:114-130 | [] when `pages < 1`, and no partial record is ever returned by a scrape |
| `Scraper.ScrapedPagesExtend` | app/scraper.py:124-130 | the products of the first `m` pages are a prefix of those of the first `n >= m` pages |
| `Scraper.ScrapedProductHasPage` | app/scraper.py:125-128 | every scraped product comes from one of the pages 1..`pages` |
| `Scraper.FailedPageAddsNothing` | app/scraper.py:125-128 | a page whose fetch fails leaves the accumulated products unchanged |
| `Scraper.Scraper.constructor` | app/scraper.py:36-39 | the scraper keeps its base URL and proxy, and its headers are the fixed `User-Agent` |

## Left out

- Network I/O: `requests.get` is the `Network` oracle, and every attempt of the oracle ends. The code passes no `timeout=` (`app/scraper.py:55-59`), so a real attempt can block forever; that blocking is not modelled, and the termination of `RetryRequest` holds for the model only.
- `time.sleep(delay)` and the `delay` parameter: waiting has no effect on any result.
- HTML parsing and CSS selection (BeautifulSoup): a response arrives already split into its cards.
- `Element.text`: the element's text (bs4 concatenates the descendant text) is given, not computed.
- The grammar of `float()`: it is the `parseFloat` parameter. A Dafny `real` has no NaN, infinities or `-0.0`. A NaN price, which Python treats as truthy, is therefore not modelled.
- Logging: only the two checks' warnings are modelled, as returned values. The message texts and the other log lines are left out.
- `Scraper.save_to_json` and `app/storage.py`: file I/O and JSON text. Only the reading-back of one dictionary (`FromDict`) is modelled.
- Scraper.FromDict: the product model used for loading (`app/models.py:5-8`) validates each field and converts some values, for example a price stored as the text "12.5". Here a value of another kind than `to_dict` writes gives `None`; that conversion is not modelled. Because extra keys are ignored, the loaded product's `to_dict` agrees with the dictionary only on the three keys, not on the whole dictionary.
- `app/main.py` (endpoint, token check, HTTP errors), `app/models.py` and `app/config.py`: framework declarations and constants with no pipeline logic. The one exception is how the `Product` model of `app/models.py` loads a dictionary, which `FromDict` models.
- Object identity of `Product`: it is a value, because its fields are never reassigned after `__init__`.
- Scraper.Scraper.RetryRequest: the number of attempts is a ghost output, because the code only logs it.
