# Hotel detail extraction, modelled in Dafny

This project models `getHotelItemData` of the Google Hotels scraper
(`src/scraper/detail.ts`). The function reads one hotel detail page and
builds a `GoogleHotelItemData` record. The model covers what the function
does with the values it reads:

- It turns each "Visit site" price row into a price entry or null, then
  de-duplicates the entries by provider with a `findIndex` filter.
- It cleans each price text down to its digits and dots, and turns each
  relative `href` into an absolute provider link.
- It cuts the review summary label ("4.5 out of 5, from 1,234 reviews") into
  a rating text and a review count.
- It puts `https:` in front of protocol-relative photo `src` URLs
  (`//host/...`), keeps every other `src` unchanged, and drops images
  without a `src`.
- It derives the thumbnail and the price range.

Every browser read (heading text, attributes, inner texts, element counts,
tab waits) is an input field of `HotelDetail.PageReadings`. The three reads
whose failure aborts the extraction become a `Failure` result.

Modules, one per file:

| file | module | models |
|---|---|---|
| wrappers.dfy | `Wrappers` | `Option` for `null`/`undefined`, `Result` for an aborted extraction |
| sequences.dfy | `Sequences` | dropping nulls from an array (`Compact`), counting present entries, subsequences |
| js_string.dfy | `JsString` | `indexOf`, `substring`, `replace(string, '')`, `startsWith`, `trim` |
| js_number.dfy | `JsNumber` | JavaScript numbers (`NaN` or a value), `<` and `>`, `parseInt(s, 10)`, `parseFloat` of a cleaned price |
| price_rows.dfy | `PriceRows` | price text cleanup, provider link, row results, the de-duplication filter and its reference definition |
| reviews.dfy | `Reviews` | rating text and review count taken from the review label |
| photos.dfy | `Photos` | photo `src` normalisation and collection |
| hotel_detail.dfy | `HotelDetail` | the record, thumbnail, price range, and the whole extraction |
| price_examples.dfy | `PriceExamples` | price texts of the usual shape, and a worked de-duplication |
| review_labels.dfy | `ReviewLabels` | review labels of the shape "<rating> out of 5, from <count> reviews" |

Two behaviours of the code are worth knowing when reading the model:

- The review count: `replace(',', '')` with a string pattern removes only
  the first separator, so "from 1,234,567 reviews" reads as 1234
  (`ReviewLabels.SummarizeTwoSeparators`, and the instance
  `ReviewLabels.SummarizeMillionReadsPrefix`).
- The place id: it is read with a locator `getAttribute`, which waits for
  the element and throws when none appears. So a page without a place id
  element aborts with `PlaceIdNotFound`.

## Model

| member | source | states |
|---|---|---|
| JsString.IndexOf | src/scraper/detail.ts:67-68 | `indexOf` gives an index where the pattern occurs with no occurrence before it, or -1 exactly when it occurs nowhere |
| JsString.StartsWith | src/scraper/detail.ts:96 | `startsWith(p)` holds exactly when the text is at least as long as `p` and its first characters are `p`, and the text is then `p` followed by the rest |
| JsString.Substring | src/scraper/detail.ts:67-68 | `substring` clamps its arguments into the string: an in-range pair gives that slice; a negative or zero end gives the text before the clamped start, so `substring(0, -1)` (no "out") is empty; a non-positive start with an end at or past the length is the whole label, as `substring(-1)` (no "from") is |
| JsString.SubstringSwap | src/scraper/detail.ts:67-68 | `substring` swaps arguments that come in the wrong order: the result does not depend on their order |
| JsString.RemoveFirst | src/scraper/detail.ts:69-71 | `replace(p, '')` removes only the first occurrence: the text is shorter by exactly the pattern's length, or unchanged when the pattern is absent |
| JsString.RemoveLeading | src/scraper/detail.ts:68-69 | a text that starts with the pattern loses exactly that leading occurrence |
| JsString.IndexOfJoined | src/scraper/detail.ts:67-68 | in a text `a + p + b` where `a` lacks the first character of `p`, `indexOf(p)` is the length of `a` |
| JsString.IndexOfJoinedNear | src/scraper/detail.ts:68 | the same with one near miss before `p` (the "of" before "from"): a character followed by text that does not continue as `p` |
| JsString.IndexOfAbsent | src/scraper/detail.ts:67-71 | a text without the first character of `p` gives -1 |
| JsString.RemoveFirstJoined | src/scraper/detail.ts:69-71 | `replace(p, '')` on `a + p + b`, with `a` lacking the first character of `p`, gives `a + b` |
| JsString.RemoveFirstAbsent | src/scraper/detail.ts:69-71 | `replace(p, '')` leaves a text without the first character of `p` unchanged |
| JsString.TrimIs | src/scraper/detail.ts:67-72 | `trim` yields exactly the slice between the leading and the trailing white space |
| JsString.Trim | src/scraper/detail.ts:67-72 | `trim` gives a text no longer than its input that neither starts nor ends with white space |
| JsString.TrimJoined | src/scraper/detail.ts:67-72 | white space on both sides of a text with no white space at its ends is trimmed back to that text |
| JsString.TrimIdempotent | src/scraper/detail.ts:67-72 | trimming twice gives the same text as trimming once |
| JsNumber.ParseInt | src/scraper/detail.ts:68-72 | `parseInt(s, 10)` is `NaN` exactly when no digit follows the leading white space and optional sign; otherwise it is a whole number |
| JsNumber.Less | src/scraper/detail.ts:111 | JavaScript `<` is false whenever `NaN` is involved, and otherwise compares the values |
| JsNumber.Greater | src/scraper/detail.ts:112 | JavaScript `>` is false whenever `NaN` is involved, and otherwise compares the values |
| JsNumber.ParseIntLeadingDigits | src/scraper/detail.ts:68-72 | digits followed by nothing or by a non-digit read as the value of those digits; the rest is ignored |
| JsNumber.DigitsValueAppend | src/scraper/detail.ts:68-72 | digits `e` written after digits `d` shift the value of `d` up by as many decimal places as `e` has digits |
| JsNumber.ParseDecimal | src/scraper/detail.ts:46 | `parseFloat` of a digits-and-dots text is `NaN` exactly when the text starts with neither a digit nor a dot followed by a digit; otherwise it is non-negative |
| JsNumber.ParseDecimalDigits | src/scraper/detail.ts:46 | a price text made only of digits reads as its decimal value |
| Sequences.Compact | src/scraper/detail.ts:102 | dropping nulls keeps one value per present entry, and the entry at index i lands at position "present entries before i" |
| Sequences.CompactFrom | src/scraper/detail.ts:102 | every value kept by the null filter comes from a present entry |
| Sequences.CountSomeSameShape | src/scraper/detail.ts:93-102 | two arrays with nulls at the same places have as many non-null entries |
| PriceRows.CleanPriceText | src/scraper/detail.ts:46 | the cleaned price text holds only digits and dots and is no longer than the input |
| PriceRows.CleanPriceTextSubsequence | src/scraper/detail.ts:46 | the cleaned text keeps the relative order of the characters of the input |
| PriceRows.CleanPriceTextKeepsAll | src/scraper/detail.ts:46 | every digit and every dot occurs in the cleaned text as often as in the input |
| PriceRows.CleanPriceTextAppend | src/scraper/detail.ts:46 | cleaning two joined texts gives the two cleaned texts joined |
| PriceRows.CleanPriceTextOfClean | src/scraper/detail.ts:46 | a text of digits and dots is left unchanged |
| PriceRows.CleanPriceTextIdempotent | src/scraper/detail.ts:46 | cleaning is idempotent |
| PriceRows.CleanPriceTextNone | src/scraper/detail.ts:46 | a text without digits or dots cleans to the empty text |
| PriceRows.ProviderLink | src/scraper/detail.ts:48 | the link starts with `https://www.google.co.in/travel`, and dropping that prefix gives back the `href` |
| PriceRows.ReadRow | src/scraper/detail.ts:38-56 | a row gives an entry exactly when it has an `href` and readable cells; the entry holds the provider text, the parsed cleaned price and the prefixed link |
| PriceRows.ReadRows | src/scraper/detail.ts:37-56 | the `map` over the buttons gives one row result per button, in button order |
| PriceRows.FindProvider | src/scraper/detail.ts:57 | `findIndex` returns the first slot holding that provider, or -1 when none does; a null slot never matches |
| PriceRows.Keeps | src/scraper/detail.ts:57 | the filter callback keeps a slot exactly when it holds an entry and no earlier slot holds an entry of the same provider |
| PriceRows.Deduplicate | src/scraper/detail.ts:57 | each kept entry is the entry in the first slot of its provider |
| PriceRows.DeduplicateIsFirstPerProvider | src/scraper/detail.ts:57 | the `findIndex` filter equals the reference definition: one pass that skips nulls and providers already emitted |
| PriceRows.KeepsIffUnseen | src/scraper/detail.ts:57 | the filter keeps a slot exactly when it holds an entry whose provider did not occur earlier |
| PriceRows.DeduplicateUnique | src/scraper/detail.ts:57 | the de-duplicated list never holds two entries with the same provider |
| PriceRows.DeduplicateKeepsOrderAndProviders | src/scraper/detail.ts:57 | the de-duplicated list is an order-preserving subsequence of the non-null row results and keeps every provider that occurs in them |
| PriceRows.DeduplicatedRowsOrigin | src/scraper/detail.ts:39-57 | each kept price comes from a row with an `href` and readable cells; its link is the travel origin plus that `href` |
| PriceExamples.CleanGroupedPrice | src/scraper/detail.ts:46 | a price shown as currency, digits, thousands separator, amount and a suffix (none of currency and suffix being digits or dots) cleans to the digits and dot of the number |
| PriceExamples.CleanTypicalPrice | src/scraper/detail.ts:46 | "$1,234.50/night" cleans to "1234.50" |
| PriceExamples.ParseTypicalPrice | src/scraper/detail.ts:46 | "1234.50" reads as 1234.5 |
| PriceExamples.DeduplicateRepeatedProvider | src/scraper/detail.ts:57 | a provider listed again after another one, with a null row in between, keeps only its first entry, in order |
| Reviews.RatingTextOf | src/scraper/detail.ts:67 | the rating text is the trimmed text before the first "out", and is empty when there is no "out" |
| Reviews.AfterFirstFrom | src/scraper/detail.ts:68-69 | `substring(indexOf('from')).replace('from', '')` is the text right after the first "from", and the whole label when there is no "from" |
| Reviews.CountTextOf | src/scraper/detail.ts:68-72 | the count text is the text after the first "from", with the first "reviews" and the first "," removed, then trimmed |
| Reviews.Summarize | src/scraper/detail.ts:60-73 | with no label or an empty one, both rating and reviews are 0; otherwise the rating is the rating text and the count is a whole number or `NaN` |
| Reviews.ReviewCountIsLeadingDigits | src/scraper/detail.ts:68-72 | the review count is the value of the leading digits of the count text |
| ReviewLabels.RatingOfLabel | src/scraper/detail.ts:67 | the rating text of "<rating> out of 5, from <count> reviews" is the rating, for any rating of digits and dots |
| ReviewLabels.AfterFromOfLabel | src/scraper/detail.ts:68-69 | the first "from" of such a label is the one before the count, so what follows it is " <count> reviews" |
| ReviewLabels.CountTextOfLabel | src/scraper/detail.ts:68-72 | the count text of such a label is its count with the first separator removed, trimmed |
| ReviewLabels.CountTextUngrouped | src/scraper/detail.ts:68-72 | a count without separators is the whole count text |
| ReviewLabels.CountTextGrouped | src/scraper/detail.ts:68-72 | a count `d1,rest` gives count text `d1rest`: only the first separator goes |
| ReviewLabels.SummarizeUngrouped | src/scraper/detail.ts:60-73 | such a label with count `d` gives the rating text and the value of `d` |
| ReviewLabels.SummarizeOneSeparator | src/scraper/detail.ts:60-73 | with count `d1,d2` it gives the rating text and the number displayed, `d1` shifted by the length of `d2` plus `d2` |
| ReviewLabels.SummarizeTwoSeparators | src/scraper/detail.ts:68-72 | with count `d1,d2,d3` it gives only the number `d1d2`: the group after the second separator is lost |
| ReviewLabels.SummarizeUsual | src/scraper/detail.ts:60-73 | "4.5 out of 5, from 1,234 reviews" gives rating text "4.5" and 1234 reviews |
| ReviewLabels.SummarizeMillionReadsPrefix | src/scraper/detail.ts:68-72 | "4.6 out of 5, from 1,234,567 reviews" gives 1234 reviews |
| Photos.NormalizeSrc | src/scraper/detail.ts:95-99 | a `src` starting with `//` gets `https:` in front and any other passes unchanged; the result never starts with `//` and ends with the `src` |
| Photos.NormalizeSrcIdempotent | src/scraper/detail.ts:95-99 | normalising twice is normalising once |
| Photos.NormalizeEntry | src/scraper/detail.ts:94-101 | the callback gives null exactly for an image without `src`; otherwise `https:` followed by the `src` when it starts with `//`, and the `src` itself when it does not |
| Photos.NormalizeAll | src/scraper/detail.ts:93-101 | the mapped array has one result per image, in image order |
| Photos.CollectPhotos | src/scraper/detail.ts:93-102 | one photo per non-null `src`, so never more photos than images; the `src` at index i becomes photo number "non-null `src`s before i", normalised |
| Photos.CollectPhotosIdempotent | src/scraper/detail.ts:93-102 | collecting already collected photos gives them back unchanged |
| Photos.FirstPhoto | src/scraper/detail.ts:93-102 | the first photo is the normalised first non-null `src` |
| Photos.NoPhotos | src/scraper/detail.ts:93-102 | with no non-null `src` there is no photo |
| HotelDetail.ReduceMin | src/scraper/detail.ts:111 | the minimum `reduce` returns its seed or one of the prices; when all of them are numbers, it returns a value at most the seed and at most every price |
| HotelDetail.NonEmpty | src/scraper/detail.ts:77-88 | an about-tab read that falls back to `undefined` for an empty string is present exactly when the value is present and non-empty, and is then that value |
| HotelDetail.Thumbnail | src/scraper/detail.ts:106 | the thumbnail is present exactly when there is a photo, and is then the first photo |
| HotelDetail.ReduceMax | src/scraper/detail.ts:112 | the maximum `reduce` returns its seed or one of the prices; when all of them are numbers, it returns a value at least the seed and at least every price |
| HotelDetail.PriceRangeOf | src/scraper/detail.ts:107-114 | the range is absent for no price, the sole price for one, and a min/max pair for two or more |
| HotelDetail.PriceRangeBounds | src/scraper/detail.ts:110-113 | with two or more prices, min and max are both prices of the list; when all prices are numbers, min ≤ max and every price lies between them |
| HotelDetail.PriceRangeNaNFirst | src/scraper/detail.ts:111-113 | when the first price is `NaN`, the range is `NaN - NaN` whatever the other prices are |
| HotelDetail.GetHotelItemData | src/scraper/detail.ts:18-130 | extraction fails exactly when the title, the place id or a tab container is missing, with `TitleNotFound`, `PlaceIdNotFound`, `TabTimeout` checked in that order. Otherwise the record holds the page URL, the place id and title; the de-duplicated row results (with unique providers); the collected photos, the thumbnail (present iff there are photos, then the first); the range of the prices by their count; the rating and count of the review summary (0 and 0 without a label); and each about-tab value exactly when it is present and non-empty |
| HotelDetail.ThumbnailFromSources | src/scraper/detail.ts:93-106 | the thumbnail is absent exactly when no image has a `src`, and otherwise is the normalised first `src` |
| HotelDetail.PricesFromRows | src/scraper/detail.ts:37-57 | the record's prices are the first entry of each provider among the rows with a link, in page order, covering every such provider |

## Left out

- Browser automation: the Playwright and crawlee calls are not modelled.
  This covers the locators, `.first()`/`.last()`, `innerText`,
  `getAttribute`, `waitForSelector`, `click` and `count`. Their results are
  the fields of `PageReadings`, in page order.
- Concurrency and timing: the `Promise.all` fan-outs and the 2-second
  settle delay are not modelled. Results are plain sequences in button or
  image order, which is the order `Promise.all` keeps.
- Which tab's wait fails first: all four are reported as one `TabTimeout`.
- Strict-mode errors: several elements matching the address, website or
  phone selector would make Playwright throw. These inputs are taken as one
  value each.
- The `try/catch` around a row's structural reads: it is the row's
  `cells` being `None`.
- `parseFloat` of the rating text: the rating is kept as the extracted text.
  `DefaultRating` stands for the literal 0.
- Number precision: `parseFloat` of a price is modelled only on the cleaned
  text of digits and dots, as an exact decimal. Rounding to double
  precision is not modelled, nor is the precision loss of `parseInt` on
  very long digit strings.
- Number formatting: the JavaScript number-to-string conversion of
  `priceRange` is not modelled. `PriceRange` keeps the numbers.
- Logging: `log.info` is diagnostic output only and is not modelled.
- Text encoding: strings are sequences of characters. UTF-16 surrogate
  pairs are not distinguished.
