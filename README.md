# Misky storefront: client core in Dafny

This project models the client-side logic of the Misky perfume storefront, a
React shop backed by a Payload CMS. The model covers four parts:

- the API service (`services/api.ts`): locale sanitising, the cache-busting
  fetch helper, the request URLs of the five resource accessors, image-URL
  resolution with the Cloudinary format/quality transformation, price
  formatting and fragrance-type labels;
- the catalog page (`pages/Shop.tsx`): its state, category filter, product
  badges, sale-price rule and language toggle;
- the landing page (`pages/Home.tsx`): the hero and review carousels, the
  three-request load and its loading and error states, the hero-title
  highlighting and the category tiles;
- the product page (`pages/Product.tsx`): which product it loads, the state
  a load leaves behind, the size default, the notes table and what it renders.

Network responses and the clock (`Date.now()`) are parameters. A response is
`HttpResponse` (a status with its `ok` flag and decoded body, or a transport
error), and each accessor returns the URL it requested together with how the
request settled. `Promise.all` is `Wrappers.All2`/`All3`. The number part of
`toLocaleString` is a function parameter. A query string is a list of
key/value pairs.

The files:

- `wrappers.dfy`: `Option`, `Result` and the `Promise.all` combinators.
- `text.dfy`: the JavaScript string operations used (`startsWith`, `indexOf`,
  `includes`, first-match `replace`, `split`, `join`, ASCII `toLowerCase`,
  integer `toString`).
- `api.dfy`: the data types and `services/api.ts` except `getImageUrl`.
- `image_url.dfy`: `getImageUrl`.
- `shop.dfy`, `home.dfy`, `product_page.dfy`: the three pages. Each page's
  state is a class whose methods are the event handlers and the two halves of
  the load (`BeginFetch` and `SettleFetch`). What the page renders is a pure
  view function.

## Model

| member | source | states |
|---|---|---|
| Api.SanitizeLocale | services/api.ts:87-93 | the result is always `en`, `ar` or `fr`; no locale or an empty one gives `en`; `ar` exactly when the lower-cased input starts with `ar`, and `fr` exactly when it starts with `fr` and not `ar` |
| Api.SanitizeLocaleByFirstTwo | services/api.ts:89-91 | only the first two characters decide, compared case-insensitively (`AR-SA` gives `ar`) |
| Api.SanitizeLocaleCaseInsensitive | services/api.ts:89 | lower-casing the input first does not change the result |
| Api.SanitizeLocaleIdempotent | services/api.ts:87-93 | sanitising a sanitised locale gives it back |
| Api.CacheBusted | services/api.ts:97-98 | the requested URL extends the given one; the separator is `&` exactly when the URL already holds `?`, else `?`; it ends in `t=` and the clock reading |
| Api.CacheBustedQueried | services/api.ts:97-98 | a URL that already has a query is requested as that URL followed by `&t=` and the clock reading |
| Api.CacheBustedDistinct | services/api.ts:98 | different clock readings give different request URLs |
| Api.FetchWithCacheControl | services/api.ts:96-102 | the request settles successfully exactly when the response is ok (`Succeeds`), with its body; a non-ok status rejects with `Fetch failed: <status>`, a transport failure with its own message |
| Api.LookupAppend | services/api.ts:111-116 | appending parameters never changes the value of a key already present |
| Api.ProductsQuery | services/api.ts:111-116 | `limit` and `page` are present exactly when truthy, `where` exactly when given; `locale` (sanitised) and `depth=2` are always there, as the last two entries; no other key appears |
| Api.BuildProductsQuery | services/api.ts:111-116 | the successive `append` calls build exactly that query |
| Api.GetProducts | services/api.ts:105-119 | the products endpoint is requested with that query and a timestamp; the whole envelope is returned on success |
| Api.FeaturedQuery | services/api.ts:122-127 | the featured filter `{"featured":{"equals":true}}` is always sent, the limit is 10 unless given, no page is sent, and the locale is sanitised |
| Api.GetFeaturedProducts | services/api.ts:122-129 | the request is that of `getProducts` with the featured arguments, and the documents are returned on success |
| Api.GetProductBySlug | services/api.ts:132-138 | the URL carries the slug, `limit=1`, the sanitised locale and `depth=2`; on success there is no product exactly when no document came back, else the first document |
| Api.GetCategories | services/api.ts:141-160 | the URL sorts by display order with limit 100 and the sanitised locale; the documents are returned on success |
| Api.GetHeroSlides | services/api.ts:163-169 | the URL asks for active slides by display order with limit 10 and the sanitised locale; the documents are returned on success |
| Api.FormatPrice | services/api.ts:229-241 | the price ends in ` أوقية` exactly when the locale (default `en`) starts with `ar` (case-sensitive), and in ` MRU` otherwise; the number part uses the French grouping exactly for `fr` locales |
| Api.ParfumTypeLabel | services/api.ts:243-251 | each of the four known codes maps to its label; any other code is returned unchanged |
| Api.ParfumTypeLabelsDistinct | services/api.ts:244-249 | the four labels differ and none of them is itself a code |
| ImageUrl.BaseUrlAsWritten | services/api.ts:174 | as written, the origin is the API root without its FIRST `/api`, wherever that occurs; a root without `/api` is kept |
| ImageUrl.BaseUrlAsWrittenOnApiHost | services/api.ts:174 | as written, an API host whose name starts with `api` loses its own `/api` instead of the path suffix (see Findings) |
| ImageUrl.ApiOrigin | services/api.ts:174 | the origin of an API root ending in `/api` is that root with exactly the suffix removed; any other root is kept |
| ImageUrl.BaseUrlAsWrittenOnPlainOrigin | services/api.ts:174 | when the origin holds no `/api` of its own, the first-match removal strips exactly the `/api` suffix, as the suffix strip does |
| ImageUrl.BaseUrlOfApiUrl | services/api.ts:2 | for the default API root both readings give `http://localhost:4000` |
| ImageUrl.BaseUrl | services/api.ts:174 | the origin used equals the first-match removal applied to the API root |
| ImageUrl.ResolvePath | services/api.ts:178-180 | a string starting with `http` or `data:` is kept; any other gets the origin in front |
| ImageUrl.FirstInsertion | services/api.ts:194-200 | the rewritten URL is the original with `f_auto,q_auto/` inserted right after its first `/upload/` segment |
| ImageUrl.SplitJoinIsFirstInsertion | services/api.ts:197-200 | when `split('/upload/')` gives two pieces, joining them around `/upload/f_auto,q_auto/` is the insertion after the first `/upload/` |
| ImageUrl.TransformSecureUrl | services/api.ts:189-203 | a URL with `/upload/v` gets `f_auto,q_auto/` right after the `/upload/` of its first `/upload/v`; otherwise it gets the token after its first `/upload/` exactly when `split` gives two pieces and the second does not start with `f_auto`, and is unchanged else; a URL without `/upload/` is unchanged |
| ImageUrl.TransformThumbnailUrl | services/api.ts:206-216 | a URL with `/upload/v` gets the token after the `/upload/` of its first `/upload/v`; otherwise it gets it after its first `/upload/` exactly when `split` gives two pieces and `f_auto` appears nowhere, and is unchanged else |
| ImageUrl.SecureUrlSingle | services/api.ts:191-203 | with exactly one `/upload/` segment, the token is inserted after it unless the rest already starts with `f_auto` |
| ImageUrl.ThumbnailUrlSingle | services/api.ts:208-216 | with exactly one `/upload/` segment, the token is inserted after it when a version `v` follows, and otherwise only when `f_auto` appears nowhere |
| ImageUrl.ManySegmentsUnchanged | services/api.ts:195-214 | without `/upload/v`, a URL with two non-overlapping `/upload/` segments is left as it is by both rules, since `split` then gives more than two pieces |
| ImageUrl.OverlappingSegmentsRewritten | services/api.ts:195-214 | without `/upload/v`, a URL whose only `/upload/` segments overlap (`/upload/upload/`) splits into two pieces, so both rules insert the token after the first segment (the thumbnail rule only when `f_auto` appears nowhere) |
| ImageUrl.InsertKeepsSingle | services/api.ts:194-200 | inserting the token creates no second `/upload/` segment |
| ImageUrl.SecureUrlIdempotent | services/api.ts:189-203 | with one `/upload/` segment, rewriting the rewritten `secure_url` changes nothing |
| ImageUrl.ThumbnailUrlIdempotent | services/api.ts:206-216 | with one `/upload/` segment, rewriting the rewritten `thumbnailURL` changes nothing |
| ImageUrl.ThumbnailUrlSettled | services/api.ts:208-216 | with one `/upload/` segment, a `thumbnailURL` that has received the token is left as it is |
| ImageUrl.ChosenSource | services/api.ts:187-226 | a non-empty `secure_url` wins over a non-empty `thumbnailURL`, which wins over a non-empty `url`; with none of them there is no source |
| ImageUrl.GetImageUrl | services/api.ts:172-227 | no reference or an empty string gives `""`; a string is resolved against the origin; an upload document is resolved from its chosen source with that source's rule |
| ImageUrl.GetImageUrlEmpty | services/api.ts:173-226 | the result is empty exactly when there is no reference, an empty string, or an upload with no usable field |
| Shop.FilterByCategory | pages/Shop.tsx:56 | a product is kept exactly when it is in the list and its category id equals the selected one |
| Shop.FilterByCategoryAppend | pages/Shop.tsx:56 | filtering distributes over concatenation, so products keep their order |
| Shop.FilterByCategoryCount | pages/Shop.tsx:56 | each matching product is kept as many times as it occurs; others not at all |
| Shop.FilterByCategoryIsSubsequence | pages/Shop.tsx:56 | the filtered list is an order-preserving subsequence of the product list |
| Shop.FilteredProducts | pages/Shop.tsx:55-57 | with no selection (or an empty id) every product is listed; otherwise exactly the products of the selected category, as the category filter gives them (so in order and with their multiplicities) |
| Shop.ProductBadge | pages/Shop.tsx:102-105 | the badge reads `BESTSELLER` exactly when featured (even if new), `NEW` exactly when new and not featured; there is no badge otherwise |
| Shop.CoverImage | pages/Shop.tsx:100 | the card image is empty exactly when the product has no image or its first image resolves to nothing |
| Shop.ShowsCompareAtPrice | pages/Shop.tsx:118 | the struck-through price is shown only when a compare-at price exists and exceeds the price, and whenever a non-zero one does; the same rule is written out again on the product page (pages/Product.tsx:107 and :211) and the landing page (pages/Home.tsx:310) |
| Shop.ShowsCompareAtPriceUnderSchema | pages/Shop.tsx:118 | with the schema's non-negative price, it is shown exactly when the compare-at price exceeds the price |
| Shop.ToggledLanguage | pages/Shop.tsx:27-29 | `ar` exactly when the language is `en`; `en` for every other language, French included |
| Shop.ToggleTwice | pages/Shop.tsx:27-29 | two toggles restore English and Arabic, but take French to Arabic |
| Shop.ShopProductsQuery | pages/Shop.tsx:37 | the page asks for up to 100 products, unfiltered, in the sanitised language |
| Shop.ShopFetchOutcome | pages/Shop.tsx:35-38 | the load succeeds exactly when both requests do, with the categories and the product documents |
| Shop.View | pages/Shop.tsx:81-95 | the spinner shows while loading; the error banner shows exactly when not loading and the error is non-empty, and then carries that error; the grid lists the filtered products once loading ends |
| Shop.FailureKeepsGrid | pages/Shop.tsx:87-95 | after a failed reload the banner is shown and the previously loaded products stay listed beneath it |
| Shop.ShopPage.constructor | pages/Shop.tsx:19-23 | no products, no categories, no selection, loading, no error |
| Shop.ShopPage.ViewAll | pages/Shop.tsx:64 | the selection is cleared |
| Shop.ShopPage.SelectCategory | pages/Shop.tsx:73 | the selection becomes the category's id |
| Shop.ShopPage.BeginFetch | pages/Shop.tsx:34 | loading is set |
| Shop.ShopPage.SettleFetch | pages/Shop.tsx:40-48 | on success both lists are replaced and the error cleared; on failure the lists are kept and the error is `Failed to load products.`; loading ends either way |
| Home.NextIndex | pages/Home.tsx:67 | a tick lands inside the ring; it moves one place on and wraps from the last position to the first |
| Home.AdvancePosition | pages/Home.tsx:67 | up to a full turn, `k` ticks from a valid position move it `k` places round the ring |
| Home.CarouselCycle | pages/Home.tsx:67 | after `n` ticks the carousel is back at its start and not before; from the first slide the `k`-th tick shows slide `k`, so every slide is shown |
| Home.HomeFetchOutcome | pages/Home.tsx:41-45 | the load succeeds exactly when all three requests do, with their documents; a failure carries the rejection message of one of the failed requests |
| Home.HomeFeaturedQuery | pages/Home.tsx:44 | the featured request asks for three featured products |
| Home.LoadErrorMessage | pages/Home.tsx:53 | the message is `Failed to load: ` followed by the rejection message, or `Unknown error` when that is empty |
| Home.View | pages/Home.tsx:84-111 | the spinner while loading; the error panel exactly when not loading with a non-empty error; the content otherwise |
| Home.FailureShowsPanel | pages/Home.tsx:53 | a settled failure always shows the error panel, as its message is never empty |
| Home.StatusInPanel | pages/Home.tsx:53 | a non-ok status reaches the panel as `Failed to load: Fetch failed: <status>` |
| Home.TitleSpans | pages/Home.tsx:144-154 | one span per word; outside Arabic exactly the last two words are highlighted; in Arabic none is |
| Home.ArabicTitleText | pages/Home.tsx:145 | in Arabic the heading reads as the title followed by a space |
| Home.LatinTitleText | pages/Home.tsx:146-153 | outside Arabic a title of two or more words reads back exactly |
| Home.LatinSingleWordText | pages/Home.tsx:146-151 | outside Arabic a one-word title is preceded by a space |
| Home.FeaturedCategories | pages/Home.tsx:238 | at most three tiles, the first categories in fetched order |
| Home.HomePage.constructor | pages/Home.tsx:28-34 | empty lists, both carousels at 0, loading, no error |
| Home.HomePage.HeroTick | pages/Home.tsx:63-71 | with more than one slide, a tick moves to the next slide modulo the slide count and so brings the position back in range; otherwise no timer runs and nothing changes |
| Home.HomePage.ReviewTick | pages/Home.tsx:74-79 | a tick moves to the next of the four reviews (pages/Home.tsx:16-21), wrapping round |
| Home.HomePage.ClickHeroIndicator | pages/Home.tsx:197-203 | clicking indicator `i` shows slide `i`, which is in range |
| Home.HomePage.ClickReviewIndicator | pages/Home.tsx:347 | clicking indicator `i` shows review `i` |
| Home.HomePage.BeginFetch | pages/Home.tsx:40 | loading is set |
| Home.HomePage.SettleFetch | pages/Home.tsx:47-55 | on success the three lists are replaced and the error cleared; on failure the lists are kept and the error is the load-error message; loading ends either way; the carousel positions are not reset |
| Home.HomePage.SettleFetchInRange | pages/Home.tsx:47-55 | as the load's end, except that after a success a slide position the new slides do not reach goes back to the first slide and one they do reach is kept, so some slide is shown whenever there is one (see Findings) |
| Home.HomePage.ShownSlide | pages/Home.tsx:119 | the slide shown at full opacity is the current position when that is below the slide count, and none otherwise |
| Home.SingleSlideReloadAsWritten | pages/Home.tsx:64 | three slides, two ticks, then a reload leaving one slide: the position stays at 2 and no slide is shown, even after a further tick (see Findings) |
| Home.SingleSlideReloadInRange | pages/Home.tsx:47-55 | the same sequence with the corrected load shows the one slide |
| ProductPage.SourceFor | pages/Product.tsx:29-37 | a present, non-empty slug is looked up by slug; otherwise the first featured product is used |
| ProductPage.FetchedProduct | pages/Product.tsx:27-37 | the load succeeds exactly when the response is ok; it then has no product exactly when no document came back, else the first document |
| ProductPage.RequestUrl | pages/Product.tsx:29-37 | by slug, the slug URL; without one, the featured-products URL with limit 1; either way the clock reading is joined with `&t=`, as the URL already has a query |
| ProductPage.FallbackQuery | pages/Product.tsx:33 | the fallback asks for exactly one featured product |
| ProductPage.SizeOrDefault | pages/Product.tsx:41 | the selected size is never empty: the product's size, or `50ml` when it has none |
| ProductPage.SettledError | pages/Product.tsx:39-48 | the error is cleared exactly when a product arrived, is `Product not found` exactly when none did, and `Failed to load product details` exactly when the request rejected |
| ProductPage.DisplayedNotes | pages/Product.tsx:75 | without notes every row shows `-`; with notes each row shows its note, or nothing when that note is absent |
| ProductPage.View | pages/Product.tsx:57-72 | the spinner while loading; the details exactly when not loading, with no non-empty error and a product held; otherwise the error, or `Product not found` when there is none |
| ProductPage.ViewAfterSettle | pages/Product.tsx:39-72 | once a load settles the page shows the arrived product, `Product not found` or `Failed to load product details`, whatever an earlier load left behind |
| ProductPage.FetchToView | pages/Product.tsx:24-72 | from the response: a rejection shows the failure, an empty result `Product not found`, otherwise the first document's details |
| ProductPage.ProductPage.constructor | pages/Product.tsx:18-21 | no product, loading, no error, size `50ml` |
| ProductPage.ProductPage.BeginFetch | pages/Product.tsx:26 | loading is set |
| ProductPage.ProductPage.SettleFetch | pages/Product.tsx:39-50 | an arrived product replaces the held one, sets the size and clears the error; otherwise only the error is set; loading ends either way |
| Wrappers.All2 | pages/Shop.tsx:35-38 | `Promise.all` of two: both values exactly when both succeed, else the error of one that failed |
| Wrappers.All3 | pages/Home.tsx:41-45 | `Promise.all` of three: the three values exactly when all succeed, else the error of one that failed |

## Left out

- Network I/O, `response.json()` and `Date.now()` are not modelled; responses and the clock reading are inputs.
- Wrappers.All2: which failed request's error `Promise.all` reports depends on settle timing; the model takes the first failure in argument order and states only that the error is one of the failed requests'.
- Concurrency is not modelled: a load that settles after the language has changed again is not modelled, and each load is treated as one settle step.
- `setInterval` and `clearInterval` timing are not modelled; only the per-tick index update is. The intervals (6000 ms and 5000 ms) do not appear in the model.
- `URLSearchParams` percent-encoding and `JSON.stringify` of `where` are not modelled: a query is a list of pairs, and the `where` filter is written out for the flat `{field: {equals: value}}` shape the code uses.
- Api.FormatPrice: `toLocaleString` grouping comes from the locale library, so it is a function parameter, and prices are integers (non-integer prices are out of scope).
- `toLowerCase` is modelled for ASCII letters only; other characters are kept.
- The `VITE_API_URL` environment override of `API_URL` is not modelled; the model uses the default `http://localhost:4000/api`.
- The debug `console.log` loop in `getCategories` (services/api.ts:147-158) has no effect on the result and is left out.
- Api.ParfumTypeLabel: object-prototype keys such as `toString` are not modelled; the table is a four-entry map.
- ImageUrl.SecureUrlIdempotent: idempotence is stated only for URLs with exactly one `/upload/` segment. With two segments the second rewrite can touch the other one.
- ImageUrl.ThumbnailUrlIdempotent: stated only for URLs with exactly one `/upload/` segment, for the same reason.
- Home.HomePage.ClickHeroIndicator: the indicators are rendered only with more than one slide, so clicks come only from valid indices.
- A reload that leaves fewer hero slides than the current position is modelled as the code does it. With two or more slides the next tick brings the position back in range. With exactly one slide there is no timer and no indicator, so no slide is shown until the page remounts (see Findings).
- JSX markup, CSS, routing (`App.tsx`), the menu in `components/Layout.tsx`, the static pages (`pages/Guide.tsx`, `pages/About.tsx`, `pages/Contact.tsx`), `types.ts` and the backend collections and scripts are not part of this model. The only backend constraint used is the non-negative price (backend/src/collections/Products.ts:47).

## Findings

| source | as written | input that shows it | evidently intended | confidence | as-written member | corrected member |
|---|---|---|---|---|---|---|
| services/api.ts:174 | `API_URL.replace('/api', '')` removes the first `/api` anywhere in the URL | `https://api.example.com/api` becomes `https:/.example.com/api` | strip the trailing `/api` path to get the origin, `https://api.example.com` | medium, not executed; the default `http://localhost:4000/api` is unaffected | ImageUrl.BaseUrlAsWrittenOnApiHost | ImageUrl.ApiOrigin |
| pages/Home.tsx:47 | a successful load replaces the hero slides but keeps `currentSlide`; with one slide the timer (pages/Home.tsx:64) and the indicators (pages/Home.tsx:197) are absent | while the third of three slides shows, two slides are deactivated or deleted in the CMS and the language is then switched, so the page reloads with one active slide: `currentSlide` stays 2 and the slide test `currentSlide === index` (pages/Home.tsx:119) never holds | bring `currentSlide` back in range when the slides change | low, not executed; the slide count is the same in every locale (`active` is not localized), so the bug needs a content change between loads | Home.SingleSlideReloadAsWritten | Home.HomePage.SettleFetchInRange |
