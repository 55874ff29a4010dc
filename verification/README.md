# Crochet catalogue: listing, cache and detail page in Dafny

This project models the logic of a static shop's two browser scripts:

- `js/products.js` is the catalogue page. It filters the product collection by type, category and difficulty, and shows the result 8 or 9 per page with a pagination bar. It keeps fetched JSON collections in two tiers: the in-memory `JSON_CACHE`, and `sessionStorage` under versioned keys `prod_json_v3_<src>`. It resets its filters on tab, category, difficulty and viewport events.
- `js/detalle.js` is the product detail page. It normalises the `src` parameter and finds the product by `id`, then `idx`, then `slug`. It works out the price, the pattern pill, the free-pattern callout and the description bullets, and picks up to four related products.

Modules follow the scripts' structure:

- `Products` is the product record. `JsValue` and `JsNumber` cover the JavaScript value semantics the scripts rely on: truthiness, `??`, `||`, `String(v)` and `Number(v)`.
- `Filter`, `Paging`, `Pagination`, `JsonCache` and `Listing` model the catalogue page.
- `Html`, `Bullets`, `Slug`, `Pricing`, `Detail` and `Links` model the detail page, and the links between the two pages.

Product fields that the scripts compare with `===` keep their JSON primitive value (`Prim`), so strict equality is structural equality. Object identity (`x !== p`, `indexOf(p)`) is modelled by positions in the collection: every product is a distinct object parsed from a JSON file, so `indexOf` of a listed product is its own position.

The code as written behaves as follows:

- **No request coalescing.** `prefetchIfNeeded` and a hover can start a second fetch of a source whose first fetch is still in flight. Each `fetchAndStore` is its own `FetchRequest`.
- **No generation token on loads.** `renderToken` only decides whether the lazy image loader is attached. A fetch that completes late still replaces `allProducts`, resets the page and re-renders, even when it is a prefetch of a tab that is not shown (`Listing.FetchCompletionReplacesCollection`).
- **Legacy keys only.** The cache cleanup removes only the three unversioned legacy keys (`prod_json_products.json`, `prod_json_pay.json`, `prod_json_free.json`), not keys of other versions. It runs on every load, not once per session.
- **A session hit is served, then replaced by the skeleton where `requestIdleCallback` exists.** The refresh is scheduled with 0 as `requestIdleCallback`'s options argument, which the browser rejects with a TypeError. The empty `catch` swallows it and control falls through to the network branch: the skeleton covers the grid just rendered and a foreground fetch starts (`JsonCache.SessionHitFallsThrough`). Only with `setTimeout`, where `requestIdleCallback` is missing, is the session copy shown and refreshed in the background. Either refresh re-renders when it completes, like any other fetch. See "## Findings".
- **Negative prices.** The listing shows "Gratis" unless the price is positive; the detail page shows "Gratis" only for a missing or zero price. A negative price is shown as free on the listing and as a price on the detail page (`Pricing.ListingAndDetailAgree`).

## Model

| member | source | states |
|---|---|---|
| Filter.FilteredIsOrderedSelection | js/products.js:149-155 | the filtered list is a subsequence of `allProducts` in its order; a product is kept, as often as it occurs, iff the type, category and difficulty tests all hold |
| Filter.TypeIgnoredOutsideTypedSources | js/products.js:149-151 | outside `products.json` and `pay.json` the selected type has no effect on the result |
| Filter.FreeSourceUnfiltered | js/products.js:149-155 | on `free.json` with category "Todos" and difficulty "all" every product is listed |
| Paging.PageSize | js/products.js:24-25 | the page size is 8 on a narrow viewport and 9 otherwise |
| Paging.TotalPages | js/products.js:166-167 | `ceil(n/size) \|\| 1` is at least 1, and for n ≥ 1 the last page starts before n and the page after it would start at or past n |
| Paging.ClampPage | js/products.js:168-169 | the current page ends inside `[1, total]`, unchanged when already inside, `total` when above, 1 when below |
| Paging.PageStartInside | js/products.js:171 | every page in range starts inside the list, and every page but the last is followed by another non-empty one |
| Paging.PageSlice | js/products.js:171-172 | the slice is the non-empty contiguous run from `(page-1)*size`, full except on the last page, which reaches the end |
| Paging.Paginate | js/products.js:157-172 | no page exactly when nothing matches; otherwise the page is clamped into `[1, total]`, the requested page is kept when it is in range, and the items are the matching slice |
| Paging.PagesUpToIsPrefix | js/products.js:166-172 | the first k pages together are the prefix before page k+1 starts |
| Paging.PagesReassemble | js/products.js:166-172 | concatenating pages 1..totalPages gives back the filtered list exactly |
| Pagination.Build | js/products.js:216-224 | the bar is hidden exactly when there is at most one page |
| Pagination.ArrowTargets | js/products.js:260-284 | "prev" targets `max(1, cur-1)` and is disabled iff `cur = 1`; "next" targets `min(total, cur+1)` and is disabled iff `cur = total` |
| Pagination.WindowFacts | js/products.js:269-274 | the sliding window starts in `[1, cur]` and ends before the last page, three pages wide |
| Pagination.EntriesSplit | js/products.js:269-279 | with more than four pages, the entries are the window, an optional ellipsis, then the last page |
| Pagination.EntriesInRange | js/products.js:265-279 | every numbered entry lies in `[1, total]` and is active iff it is the current page, and the last page is always shown |
| Pagination.EntriesShowCurrent | js/products.js:265-279 | the current page appears as the active entry |
| Pagination.EntriesIncreasing | js/products.js:265-279 | the numbered entries strictly increase, so each page, the current one included, appears once |
| Pagination.EntriesCount | js/products.js:265-279 | there are at most four numbered entries |
| Pagination.EllipsisWhenGap | js/products.js:274-277 | an ellipsis appears iff the window ends before page `total-1`, which is iff `total > 4` and `cur < total-3` |
| Pagination.AllPagesWhenFew | js/products.js:267-268 | with at most four pages every page is listed in order |
| JsonCache.SessionKeyVersioned | js/products.js:42-44 | every durable key starts with `prod_json_v3_`, and distinct sources get distinct keys |
| JsonCache.SessionKeyNotLegacy | js/products.js:80-84 | no versioned key matches the legacy-key pattern |
| JsonCache.RemoveLegacyKeys | js/products.js:80-85 | the sweep keeps exactly the entries whose key is not a legacy key, with their values |
| JsonCache.SweepKeepsVersionedKeys | js/products.js:80-85 | the sweep removes exactly the three unversioned keys, keeps every versioned entry, and is idempotent |
| JsonCache.Load | js/products.js:77-112 | as written: a load sweeps the session, never loses a memory entry, serves what memory then holds for the source whenever it serves anything, and only fetches that source; with `requestIdleCallback` present a session hit falls through to the network branch |
| JsonCache.LoadIntended | js/products.js:77-112 | the intended load: the same sweep and memory guarantees, and a session hit is never followed by the skeleton |
| JsonCache.MemoryHitIgnoresSession | js/products.js:87-93 | a memory hit serves the memory entry whatever the session holds and whether or not `requestIdleCallback` exists, leaves memory alone and fetches nothing |
| JsonCache.SessionHitPromoted | js/products.js:95-106 | intended: a parsable session entry is copied into memory, served, and followed by one background refresh; the code as written does exactly this when `requestIdleCallback` is missing |
| JsonCache.SessionHitFallsThrough | js/products.js:95-111 | as written with `requestIdleCallback`: a parsable session entry is copied into memory but the skeleton replaces it and a foreground fetch starts, unlike the intended load |
| JsonCache.ForegroundFetchOnlyOnMiss | js/products.js:95-112 | intended: a foreground fetch is issued iff both tiers miss, and that is exactly when the skeleton is shown |
| JsonCache.ForegroundFetchAsWritten | js/products.js:95-112 | as written: a foreground fetch is issued iff memory misses and either the session misses or `requestIdleCallback` exists, and that is exactly when the skeleton ends up shown |
| JsonCache.Store | js/products.js:114-124 | a successful fetch writes memory always and the session when writable; a failed session write leaves the session unchanged; other entries are kept |
| JsonCache.LoadAfterStore | js/products.js:114-124 | after a successful fetch the next load is a memory hit with that data, on any browser; a later fetch of the same source wins |
| JsonCache.Prefetch | js/products.js:132-135 | a prefetch issues at most one fetch of its source, never the idle refresh kind, and issues it whenever neither tier holds the source |
| JsonCache.PrefetchSkipsCached | js/products.js:132-135 | a prefetch issues nothing when either tier holds the source, or after a successful fetch of it |
| JsonCache.WarmPrefetchTargets | js/products.js:136-139 | the warm-up fetches only `pay.json` and `free.json`, never the current source, and only sources that neither tier holds; each of the two that is not current and held by neither tier is fetched |
| Listing.Render | js/products.js:146-214 | rendering changes only the page and the view; it shows "no products" iff nothing matches and otherwise a grid on a page inside `[1, total]` |
| Listing.RenderShowsCurrentListing | js/products.js:146-214 | after a render, the grid is exactly the page that the filters, page and viewport call for, with its pagination bar |
| Listing.LoadIntoShowsCurrentListing | js/products.js:77-112 | every load leaves a consistent listing: a cache hit renders one, and the skeleton claims nothing |
| Listing.StepPreservesListing | js/products.js:302-383 | every event keeps the displayed listing consistent with the state |
| Listing.CategoryShowsCurrentListing | js/products.js:336-347 | a category click renders a consistent listing |
| Listing.ToggleShowsCurrentListing | js/products.js:357-368 | toggling "all difficulties" renders a consistent listing |
| Listing.SliderPreservesListing | js/products.js:370-376 | slider input keeps the listing consistent, whether or not "all difficulties" is checked |
| Listing.SliderRenderShowsCurrentListing | js/products.js:370-376 | slider input with "all difficulties" unchecked renders a consistent listing |
| Listing.ViewportShowsCurrentListing | js/products.js:380-383 | a viewport change renders a consistent listing |
| Listing.PageClickPreservesListing | js/products.js:237-242 | a page click keeps the listing consistent |
| Listing.PageRenderShowsCurrentListing | js/products.js:237-242 | an enabled page click renders a consistent listing |
| Listing.FetchShowsCurrentListing | js/products.js:118-124 | a completed fetch renders a consistent listing |
| Listing.TabSwitchResets | js/products.js:302-331 | a tab switch sets type and source, category "Todos", difficulty "all" and page 1; it enables and checks "all difficulties" iff the source is not `free.json`; the slider ends up disabled |
| Listing.FilterChangesResetPage | js/products.js:336-383 | every category, difficulty or viewport change leaves the listing on page 1 |
| Listing.FetchCompletionReplacesCollection | js/products.js:114-124 | a completed fetch of any source replaces `allProducts`, resets the page and writes memory, whatever tab is current |
| Listing.FetchFailureKeepsState | js/products.js:125-128 | a failed fetch shows the error and changes neither cache tier nor the collection |
| Listing.PageClickShowsTarget | js/products.js:230-243 | disabled and active entries do nothing; an enabled click on a page in range shows that page |
| JsValue.FirstNumber | js/detalle.js:31 | a number is its own value; of the two nullish values `undefined` gives null while `null` gives a number |
| JsNumber.StringToNumber | js/detalle.js:71 | `Number` of a blank string is 0 |
| JsNumber.NatStringRoundTrip | js/products.js:181 | `Number(String(n)) === n` for every index n |
| Pricing.PricePrecedence | js/detalle.js:99 | the price is the first of `price`, `price_usd`, `usd` that is neither null nor undefined |
| Pricing.DetailFreeIff | js/detalle.js:99-106 | the detail page says "Gratis" iff the price is absent, not a finite number, or 0 |
| Pricing.FreeVerdicts | js/detalle.js:105 | the detail page's free test implies the listing's, and they differ exactly on negative prices |
| Pricing.ListingAndDetailAgree | js/products.js:182-183 | a product free on the detail page is free on its card; the card alone says free exactly for a negative price |
| Html.EscapeHtml | js/detalle.js:5-7 | the output is no shorter than the input and has no `<`, `>`, `"` or `'` |
| Html.EscapeKeepsPlainText | js/detalle.js:5-7 | text without `& < > " '` is unchanged |
| Html.EscapeAppend | js/detalle.js:5-7 | escaping works character by character: escaping a concatenation concatenates the escapes |
| Html.UnescapeEscape | js/detalle.js:5-7 | decoding the five entities gives the original text back, so nothing is lost or confused |
| Bullets.SplitRuns | js/detalle.js:15 | splitting on runs of `\r`, `\n`, `;` gives at least one piece, none holding a separator |
| Bullets.SplitRunsDecomposes | js/detalle.js:15 | the pieces, with the maximal separator runs between them, rebuild the text exactly; every piece but the first and last is non-empty, so the runs are maximal |
| Bullets.SplitInterleave | js/detalle.js:15 | separator-free pieces, non-empty except possibly the first and last, joined by any non-empty separator runs, split back into themselves; with `SplitRunsDecomposes` this fixes the split uniquely |
| Bullets.GetBullets | js/detalle.js:10-18 | bullets are non-empty and trimmed; an array always gives a list; a single value gives a list iff it is a string with a non-blank trim |
| Bullets.ArrayBullets | js/detalle.js:11-12 | an array gives its elements' trimmed strings in order, each non-empty one as often as it occurs and no empty one |
| Bullets.StringBulletsHaveNoSeparator | js/detalle.js:14-15 | bullets split from a string hold no separator |
| Bullets.SplitJoin | js/detalle.js:15 | splitting bullets joined by `;` gives them back |
| Bullets.StringBulletsRoundTrip | js/detalle.js:14-15 | clean bullets written as one `;`-separated string read back unchanged |
| Bullets.ArrayBulletsRoundTrip | js/detalle.js:11-12 | clean bullets written as a string array read back unchanged |
| Slug.RemoveAccents | js/detalle.js:28 | removing accents leaves no combining mark and never lengthens the text |
| Slug.Collapse | js/detalle.js:29 | the result holds only `[a-z0-9-]`, never two dashes in a row, is empty iff the input is, and starts with the input's first character when that is a slug character |
| Slug.CollapseKeepsSlugChars | js/detalle.js:29 | the letters and digits of the input survive, in order, and nothing else that is a letter or digit appears |
| Slug.CollapseRun | js/detalle.js:29 | a maximal run of characters outside `[a-z0-9]` between two slug characters (or an end) becomes exactly one `-` |
| Slug.SlugifyKeepsLettersAndDigits | js/detalle.js:27-29 | the slug keeps every letter and digit of the lower-cased, accent-free name, in order |
| Slug.SlugifyIsSlug | js/detalle.js:27-29 | a slug holds only `[a-z0-9-]`, with no dash at either end and no two dashes in a row |
| Slug.SlugFixpoint | js/detalle.js:27-29 | every such slug is its own slug |
| Slug.SlugifyIdempotent | js/detalle.js:27-29 | `slugify(slugify(s)) == slugify(s)` |
| Slug.SlugIgnoresCaseAndAccents | js/detalle.js:27-28 | names that spell the same letters up to case and Latin-1 accents have the same slug |
| Detail.RawSource | js/detalle.js:20 | a present non-empty `src` is used as given, and a missing or empty `src` means `products.json` |
| Detail.HttpUrlHasSlash | js/detalle.js:22 | every `http(s)://` address contains `/`, so the address test adds nothing to the slash test |
| Detail.SourcePathShape | js/detalle.js:20-22 | a bare file name is read from `json/`, a path with `/` is read as given, and the result always has a `/` |
| Detail.IndexParam | js/detalle.js:70-72 | an `idx` selects position k iff `Number(idx)` is exactly k and k is below the length |
| Detail.FindProduct | js/detalle.js:67-76 | id first (the first product whose `String(id)` equals it), else idx, else a non-empty lower-cased slug (the first product whose name slug equals it); otherwise not found |
| Detail.LookupPrecedence | js/detalle.js:67-75 | a present `id` ignores `idx` and `slug`; otherwise a present `idx` ignores `slug` |
| Detail.TypeTextNamesStringsOnly | js/detalle.js:114-115 | only a string `type` can lower-case to one of the type names |
| Detail.PatternPillIff | js/detalle.js:113-116 | the pill shows iff `hasPattern` is truthy or the type is a string that lower-cases to `pago`, `gratuitos` or `free` |
| Detail.FreeTypeShowsPattern | js/detalle.js:165 | the free callout shows iff the file ends in `free.json` (any case) or the type is `gratuitos`/`free`, and a type-triggered callout comes with the pill |
| Detail.RelatedBelow | js/detalle.js:181-182 | the related positions below n are strictly increasing, each related, and every related position below n is listed |
| Detail.SelectRelated | js/detalle.js:181-183 | the loop form of `Related`: one pass over the collection yields exactly the first four related positions, strictly increasing, none of them the current product |
| Detail.RelatedAreFirstFour | js/detalle.js:181-183 | the current product is never related to itself; a related product left out comes after four that are shown |
| Detail.Render | js/detalle.js:91-183 | the page shows the selected product with its USD price by field precedence, "Gratis" iff that price is null or 0, the pill iff `HasPattern`, the callout iff the file or type is free, its bullets, the description iff there are bullets, and the first four related products |
| Detail.Open | js/detalle.js:62-84 | a failed load shows the error; otherwise "not found" iff the lookup fails, else exactly `Render` of the found product read from the query's own source path: its price, pattern pill, free callout (tested on the `src` parameter's path), bullets and related list |
| Links.DetailLink | js/products.js:179-181 | the card at position k links by `id=String(id)` when the product has an id, otherwise by `idx=k`, always with the page's source |
| Links.LinkRoundTrip | js/products.js:179-181 | on a detail page that reads the listed collection, the link of the card at position k finds a product with the same id text at or before k and shows it; exactly k when linked by position or when ids are unique |
| Links.CatalogueLinkReadsSameFile | js/detalle.js:20-22 | a catalogue link to a bare source name makes the detail page read `json/<source>`, the file the catalogue read |
| Links.RelatedLinkKeepsSource | js/detalle.js:191-193 | a related card passes the page's own `src`, so the linked page reads the same file |

## Left out

- Markup and the DOM are not modelled: HTML strings, `innerHTML`, skeleton placeholders, banners, breadcrumbs, thumbnails, the back button, the zoom modal and the free-callout markup. The view is a small datatype of what is shown.
- The `IntersectionObserver` lazy loader and `renderToken` are left out, because the token only gates attaching that observer.
- `fetch`, `sessionStorage`, `localStorage` and the timers are not modelled as I/O. They become two maps, fetch requests, and completion events with the fetched data. Whether the browser has `requestIdleCallback` is a flag of the catalogue state.
- The `?v=` cache-busting suffix of the fetch URL is left out.
- A `sessionStorage` that throws in `prefetchIfNeeded` (js/products.js:133, outside any `try`) is not modelled.
- A stored session value that parses to something other than a product array is not modelled. It is either parsed products, unparsable text, or empty.
- Non-array JSON from the network is left out. So are object- or array-valued product fields.
- The currency conversion `getUsdPenRate` (network, clock, local storage) and all `toFixed` and float formatting of prices are left out.
- Image lists, cover selection and the callout button text are left out.
- js/index.js is not part of this model.
- Percent-encoding: a link is modelled as the query parameters it carries. `encodeURIComponent` followed by `URLSearchParams` decoding is taken to give back the encoded text.
- JsNumber.NumberToString: `String(x)` is exact for integral values. For other values it writes the fraction to at most 16 digits, not the shortest round-trip form, and it never uses the exponent form. Double rounding and overflow of `Number(string)` are not modelled; reals stand for doubles.
- Text.ToLower: maps only `A`–`Z`. For the comparisons the scripts make against ASCII names this equals `toLowerCase`, except for rare non-ASCII characters that lower-case to ASCII, such as the Kelvin sign.
- Slug.RemoveAccents: strips the accents of the Latin-1 letters (À–ÿ) and removes combining marks. Other characters with canonical decompositions are treated as plain non-slug characters.
- Listing.Render: the grid's products are the page of the filtered list, and the card markup and price text are not modelled.
- Detail.Render: the price is the USD value only. The PEN amount, images and the callout's link are not modelled.
- Links.LinkRoundTrip: assumes the detail page reads the same collection the catalogue listed. That fails when a late fetch of another tab's source has replaced `allProducts` (`Listing.FetchCompletionReplacesCollection`): the card then links with the current tab's `src` but with an id or position from the other file.
- Events are not gated on the controls' disabled state: `AllDifficultiesChanged` and `SliderInput` take effect even when the state records the checkbox or the slider as disabled, although a disabled input never fires them. This only adds behaviour, so the invariants proved over every event still hold of the real event set.
- While the skeleton is shown, the pagination bar of the previous render stays on the page. The view records only the products container.

## Findings

| source | as written | input that shows it | evidently intended | confidence | as-written member | corrected member |
|---|---|---|---|---|---|---|
| js/products.js:104-111 | the background refresh after a session hit passes the number 0 as the options argument of `requestIdleCallback`; Web IDL rejects it with a TypeError, the empty `catch` swallows it, and control falls through to the skeleton and a foreground fetch | a browser with `requestIdleCallback`, an empty `JSON_CACHE`, and a parsable `prod_json_v3_products.json` session entry, then a page load | show the session copy and refresh it in the background, for instance by passing no second argument | not executed | JsonCache.SessionHitFallsThrough | JsonCache.SessionHitPromoted |
