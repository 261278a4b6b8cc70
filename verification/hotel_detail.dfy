/** `getHotelItemData`: the record assembled from what the page yields.
    Every browser read is an input field of `PageReadings`; the three reads
    whose failure aborts the extraction are options. */
module HotelDetail {
  import opened Wrappers
  import opened Sequences
  import opened JsNumber
  import opened PriceRows
  import opened Reviews
  import opened Photos

  /** The price range, before JavaScript turns it into text: none, the
      sole price, or the minimum and the maximum. */
  datatype PriceRange = NoRange | SinglePrice(price: Number) | Span(min: Number, max: Number)

  /** `GoogleHotelItemData`: the record the extractor returns. */
  datatype HotelItemData = HotelItemData(
    url: string,
    googleId: Option<string>,
    title: string,
    website: Option<string>,
    address: Option<string>,
    phone: Option<string>,
    photos: seq<string>,
    thumbnail: Option<string>,
    rating: Rating,
    priceRange: PriceRange,
    reviews: Number,
    prices: seq<Price>)

  /** The four tab containers the extractor waits for. */
  datatype Tab = PricesTab | ReviewsTab | DetailsTab | PhotosTab

  /** What the page yields. `title` is `None` when no heading exists and
      `placeId` when no element carries a place id (both reads wait for
      their element and throw); `loadedTabs` are the tab containers that
      appear before the wait times out. The optional about-tab fields and
      the review label are `None` when their element is absent. */
  datatype PageReadings = PageReadings(
    title: Option<string>,
    placeId: Option<Option<string>>,
    url: string,
    loadedTabs: set<Tab>,
    priceRows: seq<PriceRow>,
    reviewLabel: Option<string>,
    addressHref: Option<string>,
    websiteHref: Option<string>,
    phoneText: Option<string>,
    photoSrcs: seq<Option<string>>)

  /** The hard failures, which propagate out of the extraction. */
  datatype ExtractError = TitleNotFound | PlaceIdNotFound | TabTimeout

  const AllTabs: set<Tab> := {PricesTab, ReviewsTab, DetailsTab, PhotosTab}

  /** `value || undefined`: an empty string counts as absent. */
  function NonEmpty(o: Option<string>): (r: Option<string>)
    ensures r.Some? <==> o.Some? && o.value != ""
    ensures r.Some? ==> r == o
  {
    if o.Some? && o.value != "" then o else None
  }

  /** `photos.length ? photos[0] : undefined`. */
  function Thumbnail(photos: seq<string>): (r: Option<string>)
    ensures r.Some? <==> |photos| > 0
    ensures r.Some? ==> r.value == photos[0]
  {
    if |photos| > 0 then Some(photos[0]) else None
  }

  /** Every price is a number. */
  ghost predicate AllFinite(ps: seq<Price>) {
    forall k :: 0 <= k < |ps| ==> ps[k].price.Finite?
  }

  /** `ps.reduce((min, p) => (p.price < min ? p.price : min), acc)`. The
      result is always `acc` or one of the prices; when all of them are
      numbers it is the least. */
  function ReduceMin(ps: seq<Price>, acc: Number): (r: Number)
    ensures r == acc || exists k :: 0 <= k < |ps| && r == ps[k].price
    ensures acc.Finite? && AllFinite(ps) ==>
              && r.Finite? && r.value <= acc.value
              && forall k :: 0 <= k < |ps| ==> r.value <= ps[k].price.value
  {
    if |ps| == 0 then acc
    else
      var next := if Less(ps[0].price, acc) then ps[0].price else acc;
      var r := ReduceMin(ps[1..], next);
      assert forall k :: 0 < k < |ps| ==> ps[1..][k - 1] == ps[k];
      r
  }

  /** `ps.reduce((max, p) => (p.price > max ? p.price : max), acc)`. */
  function ReduceMax(ps: seq<Price>, acc: Number): (r: Number)
    ensures r == acc || exists k :: 0 <= k < |ps| && r == ps[k].price
    ensures acc.Finite? && AllFinite(ps) ==>
              && r.Finite? && acc.value <= r.value
              && forall k :: 0 <= k < |ps| ==> ps[k].price.value <= r.value
  {
    if |ps| == 0 then acc
    else
      var next := if Greater(ps[0].price, acc) then ps[0].price else acc;
      var r := ReduceMax(ps[1..], next);
      assert forall k :: 0 < k < |ps| ==> ps[1..][k - 1] == ps[k];
      r
  }

  /** The price range: none for no price, the sole price for one, the
      reduced minimum and maximum, both seeded with the first price, for
      more. */
  function PriceRangeOf(ps: seq<Price>): (r: PriceRange)
    ensures r.NoRange? <==> |ps| == 0
    ensures r.SinglePrice? <==> |ps| == 1
    ensures r.SinglePrice? ==> r.price == ps[0].price
    ensures r.Span? <==> |ps| >= 2
  {
    if |ps| == 1 then SinglePrice(ps[0].price)
    else if |ps| > 1 then Span(ReduceMin(ps, ps[0].price), ReduceMax(ps, ps[0].price))
    else NoRange
  }

  /** With two or more prices, both ends of the range are prices of the
      list; when every price is a number, every price lies between them. */
  lemma PriceRangeBounds(ps: seq<Price>)
    requires |ps| >= 2
    ensures var r := PriceRangeOf(ps);
            && (exists k :: 0 <= k < |ps| && r.min == ps[k].price)
            && (exists k :: 0 <= k < |ps| && r.max == ps[k].price)
    ensures AllFinite(ps) ==>
              var r := PriceRangeOf(ps);
              && r.min.Finite? && r.max.Finite? && r.min.value <= r.max.value
              && forall k :: 0 <= k < |ps| ==> r.min.value <= ps[k].price.value <= r.max.value
  {
    var r := PriceRangeOf(ps);
    if r.min == ps[0].price {
      assert exists k :: 0 <= k < |ps| && r.min == ps[k].price;
    }
    if r.max == ps[0].price {
      assert exists k :: 0 <= k < |ps| && r.max == ps[k].price;
    }
  }

  /** A `NaN` seed is never replaced, since no comparison with it holds. */
  lemma {:induction false} ReduceFromNaN(ps: seq<Price>)
    ensures ReduceMin(ps, NaN) == NaN && ReduceMax(ps, NaN) == NaN
  {
    if |ps| > 0 {
      ReduceFromNaN(ps[1..]);
    }
  }

  /** When the first price is `NaN` (price text without a digit), the
      range is `NaN - NaN` whatever the other prices are. */
  lemma PriceRangeNaNFirst(ps: seq<Price>)
    requires |ps| >= 2 && ps[0].price.NaN?
    ensures PriceRangeOf(ps) == Span(NaN, NaN)
  {
    ReduceFromNaN(ps);
  }

  /** `getHotelItemData`: the title, the place id and the four tab
      containers are required, in that order; everything else is best
      effort. */
  function GetHotelItemData(page: PageReadings): (r: Result<HotelItemData, ExtractError>)
    ensures r.Failure? <==> page.title.None? || page.placeId.None? || !(AllTabs <= page.loadedTabs)
    ensures page.title.None? ==> r == Failure(TitleNotFound)
    ensures page.title.Some? && page.placeId.None? ==> r == Failure(PlaceIdNotFound)
    ensures page.title.Some? && page.placeId.Some? && !(AllTabs <= page.loadedTabs) ==> r == Failure(TabTimeout)
    ensures r.Success? ==>
              var d := r.value;
              && d.url == page.url
              && d.googleId == page.placeId.value
              && d.title == page.title.value
              && d.prices == Deduplicate(ReadRows(page.priceRows))
              && UniqueProviders(d.prices)
              && d.photos == CollectPhotos(page.photoSrcs)
              && |d.photos| <= |page.photoSrcs|
              && (d.thumbnail.Some? <==> |d.photos| > 0)
              && (d.thumbnail.Some? ==> d.thumbnail.value == d.photos[0])
              && d.priceRange == PriceRangeOf(d.prices)
              && (d.priceRange.NoRange? <==> |d.prices| == 0)
              && (d.priceRange.SinglePrice? <==> |d.prices| == 1)
              && (d.priceRange.Span? <==> |d.prices| >= 2)
              && d.rating == Summarize(page.reviewLabel).rating
              && d.reviews == Summarize(page.reviewLabel).reviews
              && (page.reviewLabel.None? ==> d.rating == DefaultRating && d.reviews == Finite(0.0))
              && d.website == NonEmpty(page.websiteHref)
              && d.address == NonEmpty(page.addressHref)
              && d.phone == NonEmpty(page.phoneText)
              && (d.website.Some? <==> page.websiteHref.Some? && page.websiteHref.value != "")
              && (d.address.Some? <==> page.addressHref.Some? && page.addressHref.value != "")
              && (d.phone.Some? <==> page.phoneText.Some? && page.phoneText.value != "")
  {
    if page.title.None? then Failure(TitleNotFound)
    else if page.placeId.None? then Failure(PlaceIdNotFound)
    else if !(AllTabs <= page.loadedTabs) then Failure(TabTimeout)
    else
      var prices := Deduplicate(ReadRows(page.priceRows));
      DeduplicateUnique(ReadRows(page.priceRows));
      var summary := Summarize(page.reviewLabel);
      var photos := CollectPhotos(page.photoSrcs);
      Success(HotelItemData(
        url := page.url,
        googleId := page.placeId.value,
        title := page.title.value,
        website := NonEmpty(page.websiteHref),
        address := NonEmpty(page.addressHref),
        phone := NonEmpty(page.phoneText),
        photos := photos,
        thumbnail := Thumbnail(photos),
        rating := summary.rating,
        priceRange := PriceRangeOf(prices),
        reviews := summary.reviews,
        prices := prices))
  }

  /** The thumbnail of an extracted record is the normalized first present
      photo `src`, and absent exactly when no photo has a `src`. */
  lemma ThumbnailFromSources(page: PageReadings)
    requires GetHotelItemData(page).Success?
    ensures var d := GetHotelItemData(page).value;
            && (d.thumbnail.None? <==> forall j :: 0 <= j < |page.photoSrcs| ==> page.photoSrcs[j].None?)
            && forall i: nat :: IsFirstPresent(page.photoSrcs, i) ==>
                 d.thumbnail == Some(NormalizeSrc(page.photoSrcs[i].value))
  {
    var srcs := page.photoSrcs;
    var d := GetHotelItemData(page).value;
    forall i: nat | IsFirstPresent(srcs, i)
      ensures d.thumbnail == Some(NormalizeSrc(srcs[i].value))
    {
      FirstPhoto(srcs, i);
    }
    if forall j :: 0 <= j < |srcs| ==> srcs[j].None? {
      NoPhotos(srcs);
    } else {
      var i :| 0 <= i < |srcs| && srcs[i].Some?;
      assert |CollectPhotos(srcs)| > 0;
    }
  }

  /** The prices of an extracted record are the first entry of each
      provider among the readable rows with a link, in page order. */
  lemma PricesFromRows(page: PageReadings)
    requires GetHotelItemData(page).Success?
    ensures var d := GetHotelItemData(page).value;
            var rows := ReadRows(page.priceRows);
            && d.prices == FirstPerProvider(rows, {})
            && IsSubsequence(d.prices, Compact(rows))
            && Providers(d.prices) == ProvidersOf(rows)
  {
    DeduplicateIsFirstPerProvider(ReadRows(page.priceRows));
    DeduplicateKeepsOrderAndProviders(ReadRows(page.priceRows));
  }
}
