# etl-tools: the extraction and loading core, modelled in Dafny

etl-tools harvests pages of a website and loads what it finds into a headless CMS. The
harvest side reads a page's HTML and extracts records from it:

- branding: logo, favicon, hero image, colours, fonts and product images;
- taxonomy hints: breadcrumbs, meta categories, schema.org data and suggested concepts;
- content sections under `h2`/`h3` headings;
- the images of the page;
- for Next.js sites, the `__NEXT_DATA__` payload (products, navigation, hero banners,
  footer links and brand logos).

The harvest side also guesses which rendering strategy a site needs. The shared package
parses the line-oriented text that the SEO and "AI discovery" actions of the CMS return.
The loader rewrites local references between entries into CMS links and orders entries
so that dependencies come first.

This project models that logic and proves what each piece promises. The modules follow
the source files:

| module | source file |
|---|---|
| `Helpers` | `packages/harvest/src/extractors/helpers.ts` |
| `AutoDetect` | `packages/harvest/src/auto-detect.ts` |
| `Assets` | `packages/harvest/src/extractors/assets.ts` |
| `Branding` | `packages/harvest/src/extractors/branding.ts` |
| `Taxonomy` | `packages/harvest/src/extractors/taxonomy.ts` |
| `Sections` | `packages/harvest/src/extractors/sections.ts` |
| `NextData` | `packages/harvest/src/extractors/next-data.ts` |
| `AiActions` | `packages/shared/src/ai-actions.ts` |
| `EntryCreator` | `packages/loader/src/entry-creator.ts` |
| `CheerioAdapter` | `packages/harvest/src/adapters/cheerio.ts` |

Five support modules have no source file of their own:

- `Outcomes`: `Option` and `Result`.
- `Strings`: trimming, splitting, lower-casing and first-appearance deduplication, the
  last being what `[...new Set(xs)]` computes.
- `Seqs`: generic sequence facts.
- `Json`: a JSON value type, with the JavaScript accessors the code uses: `?.`,
  truthiness, `||` and `String(v)`.
- `Dom`: the abstract document, and the "first selector that yields something wins"
  cascade that several extractors share.

How the model takes the source's form:

- The HTML is never parsed. A document is a query function from a CSS selector to the
  matched elements, in document order. An element is its attributes, its text and the
  class of its parent. A missing attribute and an empty one are both `""`, because
  every use in the source is `attr(x) || ''` or a truthiness test.
- The heading/sibling walk of the sections extractor gets each heading's following
  siblings as a list.
- Code that works by pushing into arrays, looping with `break`, filling a `Set` or
  recursing with a `visited` set is a `method` with loop invariants. Examples are the
  image, logo, font, breadcrumb and concept loops, the footer counter, the `seen`
  filters and the dependency sort. Each method's `ensures` ties its result to a
  specification function, and lemmas prove what that function promises.
- Pure expressions are functions.
- `resolveReferences` works on a deep copy, and in the model its maps are values, so
  the input can never change.

In a few places the code does less, or other, than its comments and names suggest. The
model follows the code:

- Schema.org breadcrumbs are merged without the length filter that the HTML
  breadcrumbs get.
- Meta categories are capped at 10 before the schema.org categories are appended, and
  then deduplicated and capped again. Concept hints use the uncapped concatenation.
- The brand-logo name removes the first occurrence of `View information for `
  wherever it is, not only as a prefix.
- Footer ids are numbered before labels are deduplicated, so the ids have gaps.

Two places depart from the code, and each keeps its as-written counterpart beside it:

- The GEO output parser (`AiActions.ParseGeoOutput`) uses the corrected FAQ parser
  (`AiActions.ParseFaqBlock`). The code's parser (`AiActions.ParseFaqBlockAsWritten`)
  always gives no pairs.
- The image extractor tests for inline `data:` sources on the resolved URL, which with
  a parsable base never starts with `data:`. The model states that extractor as written
  (`Assets.ExtractImagesAsWritten`), but the page record uses a corrected extractor
  (`Assets.ExtractImages`) that tests the reference itself. The two agree on every page
  without inline images (`Assets.CandidatesAgreeWithoutInline`).

See "Findings".

## Model

| member | source | states |
|---|---|---|
| Helpers.MakeAbsoluteRules | packages/harvest/src/extractors/helpers.ts:1-12 | `makeAbsolute` gives `""` exactly for an empty reference, never rewrites the reference (the result ends with it: no `../` resolution), returns it unchanged when the base does not parse, and applies in order `//` → `https:`, `/` → origin + src, non-`http` → origin + `/` + src, `http…` → unchanged |
| Helpers.MakeAbsoluteIdempotent | packages/harvest/src/extractors/helpers.ts:5-8 | resolving an already resolved reference against an `http` origin changes nothing |
| Helpers.MakeAbsoluteIsHttp | packages/harvest/src/extractors/helpers.ts:5-8 | with an `http` origin every non-empty reference resolves to an `http…` URL |
| Helpers.MakeAbsoluteExamples | packages/harvest/src/extractors/helpers.ts:5-8 | protocol-relative, root-relative, relative-with-`../` and absolute examples resolve as the rules say |
| AutoDetect.DetectStrategy | packages/harvest/src/auto-detect.ts:23-120 | first match wins: `nextjs` iff `__NEXT_DATA__` text is non-empty; `nuxtjs`, `gatsby`, `blocked`, `react-static` each iff every earlier rule failed and its own test holds; every result's `pageSize` is the HTML length |
| AutoDetect.NextJsBranch | packages/harvest/src/auto-detect.ts:28-51 | the Next.js result has confidence `high` and structured data; products iff `catalogData.homeProducts.items` is an array of the unwrapped `pageProps`, navigation iff `pageData.atlasNav.content` is truthy, a version iff `buildId` is truthy |
| AutoDetect.MalformedNextData | packages/harvest/src/auto-detect.ts:33-39 | unparsable `__NEXT_DATA__` still gives `nextjs`, without products, navigation or version |
| AutoDetect.NextDataWinsOverMarkers | packages/harvest/src/auto-detect.ts:28-51 | Next.js data wins over Nuxt, Gatsby and React markers and over a small page |
| AutoDetect.NuxtBeforeGatsby | packages/harvest/src/auto-detect.ts:55-69 | a page with both Nuxt and Gatsby markers is `nuxtjs` |
| AutoDetect.SmallReactShellIsBlocked | packages/harvest/src/auto-detect.ts:83-107 | a small page is `blocked`/`high` even with React markers |
| AutoDetect.StaticFallback | packages/harvest/src/auto-detect.ts:110-119 | in the static fallback confidence is `medium` iff an `h1`, more than two `h2` or a `nav` exist, else `low`; navigation iff a `nav` exists; products iff a product-marked element exists |
| AutoDetect.FlagsByStrategy | packages/harvest/src/auto-detect.ts:41-119 | only `nextjs` and `static` can report products or navigation, only `nextjs` a version, and structured data iff `nextjs` or `nuxtjs` |
| AutoDetect.HighConfidenceStrategies | packages/harvest/src/auto-detect.ts:49-90 | confidence is `high` iff the strategy is `nextjs` or `blocked` |
| Assets.ImageSource | packages/harvest/src/extractors/assets.ts:8 | the source is `src`, else `data-src`, else `data-lazy-src` |
| Assets.DigitRun | packages/harvest/src/extractors/assets.ts:14-15 | the longest prefix of decimal digits (the part `parseInt` reads) |
| Assets.ParseInt | packages/harvest/src/extractors/assets.ts:14-15 | `parseInt(s, 10)` is NaN exactly when no digit follows the leading blanks and optional sign |
| Assets.Dimension | packages/harvest/src/extractors/assets.ts:14-15 | a missing `width`/`height` reads as `'0'`, i.e. 0 |
| Assets.ImageCandidateSound | packages/harvest/src/extractors/assets.ts:7-33 | (corrected: `data:` tested on the reference) a listed URL is the resolved, non-inline source and passes every filter; a skipped image has no source, is inline, or fails a filter |
| Assets.DataUriDropped | packages/harvest/src/extractors/assets.ts:12 | (corrected) an inline `data:` image is never listed |
| Assets.DataUriKeptAsWritten | packages/harvest/src/extractors/assets.ts:11-12 | (as written) with an `http` base, `data:x` resolves to `origin/data:x`, so the `data:` test never fires |
| Assets.DimensionlessGifExcluded | packages/harvest/src/extractors/assets.ts:14-31 | a `.gif` without a `width` is excluded |
| Assets.CandidatesFromImages | packages/harvest/src/extractors/assets.ts:7-19 | (corrected) every pushed URL comes from some image that passes |
| Assets.CandidateListed | packages/harvest/src/extractors/assets.ts:7-19 | (corrected) every image that passes has its URL pushed |
| Assets.ExtractImages | packages/harvest/src/extractors/assets.ts:4-23 | (corrected) the loop pushes the candidates in document order and returns them deduplicated, first appearance kept |
| Assets.ExtractImagesSound | packages/harvest/src/extractors/assets.ts:12-33 | (corrected) no output URL is inline or contains `tracking`, `pixel`, `1x1`, `spacer`; no small or dimensionless `.gif` |
| Assets.ExtractImagesComplete | packages/harvest/src/extractors/assets.ts:19-22 | (corrected) every accepted image is in the output and the output has no duplicates |
| Assets.ExtractImagesAsWritten | packages/harvest/src/extractors/assets.ts:4-23 | (as written: `data:` tested on the resolved URL) the loop pushes the candidates in document order and returns them deduplicated |
| Assets.CandidatesAsWrittenFrom | packages/harvest/src/extractors/assets.ts:7-19 | (as written) every pushed URL comes from some image that passes |
| Assets.CandidateAsWrittenListed | packages/harvest/src/extractors/assets.ts:7-19 | (as written) every image that passes has its URL pushed |
| Assets.ExtractImagesAsWrittenSound | packages/harvest/src/extractors/assets.ts:11-33 | (as written) each output URL is the resolved source of a passing image, does not start with `data:` and contains no tracking keyword |
| Assets.ExtractImagesAsWrittenComplete | packages/harvest/src/extractors/assets.ts:19-22 | (as written) every passing image is in the output and the output has no duplicates |
| Assets.CandidatesAgreeWithoutInline | packages/harvest/src/extractors/assets.ts:7-19 | on a page with no `data:` image source the corrected and as-written inventories are equal |
| Assets.InlineImagePageDiffers | packages/harvest/src/extractors/assets.ts:11-12 | a page whose one image is an unfiltered `data:` source under an `http` base: as written it lists `origin/data:…`, corrected it lists nothing |
| Assets.CategorizeImage | packages/harvest/src/extractors/assets.ts:35-81 | precedence logo > hero > product > section > icon > other: each category iff every earlier rule fails and its own holds (icon by size needs 0 < w ≤ 64 and 0 < h ≤ 64) |
| Assets.CategorizeIgnoresCase | packages/harvest/src/extractors/assets.ts:43-46 | lower-casing the inputs first does not change the category |
| Branding.CountMap | packages/harvest/src/extractors/branding.ts:86-89 | the keys are the tokens and each count is the number of occurrences |
| Branding.CountMapSnoc | packages/harvest/src/extractors/branding.ts:88 | one more token increments its count or sets it to 1 |
| Branding.SortByCount | packages/harvest/src/extractors/branding.ts:91-92 | the sort is a permutation of the keys |
| Branding.SortByCountRankOrdered | packages/harvest/src/extractors/branding.ts:91-92 | the stable sort orders by descending count, ties by key order |
| Branding.WithoutIgnored | packages/harvest/src/extractors/branding.ts:94 | keeps exactly the colours whose lower-case form is not ignored |
| Branding.WithoutIgnoredKeepsOrder | packages/harvest/src/extractors/branding.ts:94 | filtering keeps the rank order |
| Branding.RankedColorsMembers | packages/harvest/src/extractors/branding.ts:86-94 | ranked colours are distinct, come from the tokens, are never ignored colours, and every non-ignored token is ranked |
| Branding.RankedColorsOrdered | packages/harvest/src/extractors/branding.ts:86-94 | ranked by descending occurrence count, ties by first appearance in the style text |
| Branding.ExtractColors | packages/harvest/src/extractors/branding.ts:74-101 | the theme colour sets primary when present, else ranked[0]; secondary and accent are ranked[1] and ranked[2] |
| Branding.ThemeColorNotFiltered | packages/harvest/src/extractors/branding.ts:82-98 | no ranked pick is an ignored colour (the theme colour is not filtered) |
| Branding.ExtractLogo | packages/harvest/src/extractors/branding.ts:36-47 | the logo is the pick of the first selector whose first match has an acceptable `src`/`data-src`; none when every selector fails |
| Branding.RejectedMatchFallsThrough | packages/harvest/src/extractors/branding.ts:38-41 | a rejected first match moves to the next selector, never to the next element |
| Branding.ExtractFavicon | packages/harvest/src/extractors/branding.ts:49-57 | a favicon exactly when the chosen link has an `href`, resolved |
| Branding.FaviconPriority | packages/harvest/src/extractors/branding.ts:50-53 | `icon`, then `shortcut icon`, then `apple-touch-icon` |
| Branding.FaviconNoFallthrough | packages/harvest/src/extractors/branding.ts:51-56 | an `icon` link without `href` gives no favicon; later links are not consulted |
| Branding.UrlRun | packages/harvest/src/extractors/branding.ts:68 | the longest run of URL characters (`[^'")\s]`) |
| Branding.BackgroundImageUrl | packages/harvest/src/extractors/branding.ts:67-68 | a captured background URL is a non-empty run of URL characters |
| Branding.BackgroundImageUrlRoundTrip | packages/harvest/src/extractors/branding.ts:68 | `background-image: url(u)` yields `u` back |
| Branding.ExtractHeroImage | packages/harvest/src/extractors/branding.ts:59-72 | selectors in order; a first match's `src`/`data-src` wins, else its background URL, else the next selector |
| Branding.InlineCandidatesNotGeneric | packages/harvest/src/extractors/branding.ts:109-110 | inline families are non-empty and never generic names |
| Branding.GoogleCandidatesMembers | packages/harvest/src/extractors/branding.ts:119-120 | the Google families accepted are exactly the non-empty names |
| Branding.CollectInlineFamilies | packages/harvest/src/extractors/branding.ts:107-113 | the first loop collects the inline candidates without repeats |
| Branding.AddGoogleFamilies | packages/harvest/src/extractors/branding.ts:115-122 | the second loop appends new Google families after those collected |
| Branding.AddFaceFamilies | packages/harvest/src/extractors/branding.ts:124-131 | the third loop appends new trimmed `@font-face` families |
| Branding.ExtractFonts | packages/harvest/src/extractors/branding.ts:103-137 | heading = families[0]; body = families[1], else families[0] |
| Branding.FontFamiliesOrder | packages/harvest/src/extractors/branding.ts:104-131 | families have no duplicates and keep the order inline, then Google, then `@font-face` |
| Branding.FontFamiliesMembers | packages/harvest/src/extractors/branding.ts:110-129 | every non-empty Google name is a family; every family comes from one of the three sources (generic names are dropped only from inline matches) |
| Branding.ExtractProductImages | packages/harvest/src/extractors/branding.ts:139-167 | the loop pushes product candidates; the result is deduplicated and capped at 10 |
| Branding.ProductCandidatesSound | packages/harvest/src/extractors/branding.ts:153-178 | every candidate is the resolved address of an image of the input with a source, no tracking pixel and no `data:image`, that passes `isProduct` (alt, class or parent class contains `product`, the URL contains `product` or `/wp-content/uploads/`, or both sides exceed 200) |
| Branding.ProductCandidatesFrom | packages/harvest/src/extractors/branding.ts:142-164 | every candidate comes from some image of the input |
| Branding.ProductImagesProperties | packages/harvest/src/extractors/branding.ts:166 | at most 10, distinct, none a tracking pixel or `data:image`, each a product image |
| Branding.ProductCandidateListed | packages/harvest/src/extractors/branding.ts:142-164 | every image that passes both tests has its address pushed |
| Branding.ProductImagesComplete | packages/harvest/src/extractors/branding.ts:142-166 | every product image of the page is in the deduplicated list, and in the result when there are at most ten distinct ones |
| Branding.OgImageFallback | packages/harvest/src/extractors/branding.ts:189-199 | the `og:image` fallback exists iff the trimmed content is non-empty |
| Branding.ExtractBranding | packages/harvest/src/extractors/branding.ts:180-202 | logo, favicon, colours, fonts and product images as the extractors define them; the hero image falls back to `og:image` only when no hero selector produced one |
| Taxonomy.ExtractBreadcrumbs | packages/harvest/src/extractors/taxonomy.ts:49-67 | the crumbs are the distinct accepted texts of the first selector family that yields any; empty when none does |
| Taxonomy.FirstCrumbFamily | packages/harvest/src/extractors/taxonomy.ts:52-64 | the selector loop with `continue`/`break` computes the first pick over the remaining selectors |
| Taxonomy.CollectCrumbs | packages/harvest/src/extractors/taxonomy.ts:56-61 | the `each` loop keeps the accepted texts without repeats |
| Taxonomy.CrumbTextsFrom | packages/harvest/src/extractors/taxonomy.ts:57-58 | every crumb is an accepted (non-empty, under 100 characters) trimmed text of a match |
| Taxonomy.RejectedFamilyFallsThrough | packages/harvest/src/extractors/taxonomy.ts:58-63 | a family whose matches are all rejected contributes nothing, so the loop goes on |
| Taxonomy.HtmlBreadcrumbsProperties | packages/harvest/src/extractors/taxonomy.ts:49-67 | crumbs are distinct, accepted, and all come from a single selector family (never merged) |
| Taxonomy.ExtractMetaCategories | packages/harvest/src/extractors/taxonomy.ts:69-81 | comma-split, trimmed, length 1–49 parts of each selector's `content`, deduplicated, capped at 10 |
| Taxonomy.CategoryPartsAccepted | packages/harvest/src/extractors/taxonomy.ts:75 | every kept part has length 1 to 49 |
| Taxonomy.MetaCategoriesProperties | packages/harvest/src/extractors/taxonomy.ts:80 | at most 10, distinct, each of length 1 to 49 |
| Taxonomy.ExtractSchemaOrg | packages/harvest/src/extractors/taxonomy.ts:83-107 | categories and breadcrumbs of all JSON-LD blocks in order; an unparsable block adds nothing |
| Taxonomy.SchemaBlock | packages/harvest/src/extractors/taxonomy.ts:89-100 | one block: string categories of a `Product`, string item names of a `BreadcrumbList` |
| Taxonomy.ListNames | packages/harvest/src/extractors/taxonomy.ts:95-99 | the item loop pushes non-empty string names, stopping at a `null` item (whose `name` throws) |
| Taxonomy.ItemNamesStopAtNull | packages/harvest/src/extractors/taxonomy.ts:95-101 | a `null` item ends the block; names pushed before it stay |
| Taxonomy.ItemNamesFrom | packages/harvest/src/extractors/taxonomy.ts:96-97 | every name is a non-empty string `name` of an item |
| Taxonomy.StringsOfMembers | packages/harvest/src/extractors/taxonomy.ts:91-92 | the categories taken are exactly the string members |
| Taxonomy.SuggestConcepts | packages/harvest/src/extractors/taxonomy.ts:109-122 | the nested loops add to the set every concept of every keyword found in every lower-cased hint, in insertion order |
| Taxonomy.AddHintConcepts | packages/harvest/src/extractors/taxonomy.ts:114-118 | the keyword loop for one hint adds its concepts to the set |
| Taxonomy.AddConcepts | packages/harvest/src/extractors/taxonomy.ts:116 | `concepts.add(c)` for each mapped concept keeps set semantics |
| Taxonomy.HintConceptsMembers | packages/harvest/src/extractors/taxonomy.ts:114-116 | a concept comes from a hint iff the hint contains one of its keywords |
| Taxonomy.AllConceptsMembers | packages/harvest/src/extractors/taxonomy.ts:110-119 | a concept is suggested iff it comes from some lower-cased hint |
| Taxonomy.SuggestedConceptsCharacterised | packages/harvest/src/extractors/taxonomy.ts:109-122 | suggestions are distinct, and a concept is suggested iff some lower-cased hint contains a keyword mapping to it |
| Taxonomy.ExtractTaxonomy | packages/harvest/src/extractors/taxonomy.ts:124-151 | `urlPath` is the non-empty path segments; schema.org crumbs follow the markup crumbs, added only when new; schema.org categories follow the (capped) meta categories and the whole is deduplicated and capped at 10; concepts are suggested from the crumbs, the path segments, all collected categories, the `h1` text and the title |
| Taxonomy.MergeCrumbs | packages/harvest/src/extractors/taxonomy.ts:137-139 | appending schema crumbs only when absent equals deduplicating the concatenation |
| Taxonomy.BreadcrumbsProperties | packages/harvest/src/extractors/taxonomy.ts:132-139 | the HTML crumbs come first, the result is distinct and non-empty, and every schema crumb is in it |
| Taxonomy.SchemaCrumbsNonEmpty | packages/harvest/src/extractors/taxonomy.ts:96-97 | no schema.org crumb is empty |
| Sections.ExtractSections | packages/harvest/src/extractors/sections.ts:4-48 | the `each` over the `h2, h3` headings gives one section per heading with a non-empty title and at least one item, in document order |
| Sections.CollectItems | packages/harvest/src/extractors/sections.ts:11-40 | the sibling walk collects the items of every sibling before the next heading |
| Sections.PushEntries | packages/harvest/src/extractors/sections.ts:15-26 | a `ul`/`ol` sibling pushes one item per list entry with a non-empty name, in order |
| Sections.PushTerms | packages/harvest/src/extractors/sections.ts:28-37 | a `dl` sibling pushes one item per `dt` with a non-empty name, in order |
| Sections.BeforeHeading | packages/harvest/src/extractors/sections.ts:14 | the siblings the walk visits: the longest prefix without a heading |
| Sections.ItemsBetweenHeadings | packages/harvest/src/extractors/sections.ts:14-40 | the items of a heading are those of the siblings before the next heading |
| Sections.ItemsStopAtHeading | packages/harvest/src/extractors/sections.ts:14 | siblings after the next `h2`/`h3` contribute nothing |
| Sections.BeforeNextHeading | packages/harvest/src/extractors/sections.ts:14 | the walk stops exactly at the first heading sibling |
| Sections.NoSectionWithoutItems | packages/harvest/src/extractors/sections.ts:8-44 | an empty title, or a heading followed directly by a heading, gives no section; a section has the trimmed non-empty title and the non-empty items before the next heading |
| Sections.SiblingItemsFrom | packages/harvest/src/extractors/sections.ts:15-37 | every item of a sibling is named and comes from one of its entries or terms |
| Sections.ItemsNamed | packages/harvest/src/extractors/sections.ts:20-35 | no item has an empty name |
| Sections.EntryItemRules | packages/harvest/src/extractors/sections.ts:17-23 | a list item is named by its first anchor's text when there is an anchor (link = its `href`), else by the entry's text (link `""`); it has a description iff a `p`, `span.description` or `.desc` exists |
| Sections.TermItemRules | packages/harvest/src/extractors/sections.ts:29-35 | a term item is named by the `dt` text; link from the `dt`'s own anchor, else the `dd`'s, else `""`; description iff a following `dd`, being its trimmed text |
| Sections.SectionsAppend | packages/harvest/src/extractors/sections.ts:7-45 | the headings are handled independently: sections of a concatenation are the concatenated sections |
| Sections.SectionsWellFormed | packages/harvest/src/extractors/sections.ts:42-44 | at most one section per heading; each has a non-empty title, at least one item, all items named, and comes from one heading |
| NextData.UnwrapPageProps | packages/harvest/src/extractors/next-data.ts:24-26 | the nested `props.pageProps.pageProps` when truthy, else `props.pageProps` |
| NextData.NoPagePropsNoPayload | packages/harvest/src/extractors/next-data.ts:25-27 | without `props.pageProps` there are no page props, hence no payload |
| NextData.ExtractNextData | packages/harvest/src/extractors/next-data.ts:12-38 | no payload iff the script is missing, its text does not parse, or the unwrapped page props are falsy; otherwise the five extractions of those page props plus the raw document |
| NextData.StripHtml | packages/harvest/src/extractors/next-data.ts:210-213 | at most 300 characters, and `""` for absent HTML |
| NextData.Products | packages/harvest/src/extractors/next-data.ts:40-68 | no products unless `catalogData.homeProducts.items` is an array; then exactly one product per item, in order |
| NextData.ProductPricing | packages/harvest/src/extractors/next-data.ts:45-57 | an original price iff `amount_off` is truthy, equal to final value + amount off (NaN when the final value is missing); price = the final value when truthy, else 0; currency defaults to `AUD` |
| NextData.OriginalPriceExample | packages/harvest/src/extractors/next-data.ts:47-57 | a final price of 20 with 5 off gives an original price of 25, price 20, currency `AUD` |
| NextData.SkuRule | packages/harvest/src/extractors/next-data.ts:53 | the SKU has no comma and is trimmed; a comma-free SKU is just trimmed |
| NextData.CutAtComma | packages/harvest/src/extractors/next-data.ts:53 | `split(',')[0].trim()` keeps the trimmed text before the first comma |
| NextData.ProductUrlRule | packages/harvest/src/extractors/next-data.ts:65 | the URL starts with `baseUrl/`, ends with `.html` when there is no suffix, and reads `baseUrl/undefined…` when `url_key` is missing |
| NextData.ProductFallbacks | packages/harvest/src/extractors/next-data.ts:52-59 | name and slug default to `''`; the image alt text falls back from the image label to the product name, then to `''` |
| NextData.NavChildrenSound | packages/harvest/src/extractors/next-data.ts:102-106 | every kept child is a child of the input with `Number(group_type) === 0`, a title and a URL |
| NextData.NavChildrenKept | packages/harvest/src/extractors/next-data.ts:102-106 | every child that passes the filter is kept, at the position given by the number kept before it |
| NextData.NavChildrenPrefix | packages/harvest/src/extractors/next-data.ts:102-106 | the children kept from a prefix are a prefix of those kept from all, so input order is kept |
| NextData.TopNavSound | packages/harvest/src/extractors/next-data.ts:87-90 | every top-level node is `parseNavItem(item, 1)` of an item whose `group_type` is `'0'` or `0` and whose node has a label and a URL |
| NextData.TopNavKept | packages/harvest/src/extractors/next-data.ts:87-90 | every such item's node is kept, at the position given by the number kept before it |
| NextData.TopNavPrefix | packages/harvest/src/extractors/next-data.ts:87-90 | the nodes kept from a prefix of the items are a prefix of those kept from all, so input order is kept |
| NextData.ParseNavItemLeveled | packages/harvest/src/extractors/next-data.ts:93-111 | an item parsed at a depth of at most 2 has that level, its children are one level deeper, and only depth 1 has children: child `i` is the node, one level deeper, of the `i`-th kept child |
| NextData.TopNavShape | packages/harvest/src/extractors/next-data.ts:87-90 | each kept top-level item has level 1, a label and a URL, and is well levelled |
| NextData.NavigationShape | packages/harvest/src/extractors/next-data.ts:70-91 | each navigation item has level 1, a label and a URL, and nesting stops at depth 2 |
| NextData.ExtractHeroBanners | packages/harvest/src/extractors/next-data.ts:113-142 | the loops over slider blocks and slides push the banners of the slides in order |
| NextData.HeroBlocksProperties | packages/harvest/src/extractors/next-data.ts:119-138 | every banner has a desktop image and headline = alt text; a slide gives a banner iff its first image has a `src`, and that banner is listed |
| NextData.Numbered | packages/harvest/src/extractors/next-data.ts:149-160 | one footer link per accepted anchor |
| NextData.NumberedSnoc | packages/harvest/src/extractors/next-data.ts:159-164 | the next accepted anchor becomes `footer-<n+1>` at level 1 |
| NextData.ExtractFooterLinks | packages/harvest/src/extractors/next-data.ts:144-175 | the loops number the accepted anchors of every footer block, then keep the first link per label |
| NextData.PushFooterAnchors | packages/harvest/src/extractors/next-data.ts:155-166 | the `each` appends the accepted anchors (label of 2–59 characters, non-empty `href`), numbering them on from the counter |
| NextData.FilterSeen | packages/harvest/src/extractors/next-data.ts:169-174 | the `seen`-set filter keeps the first element per key, in order (the brand logos use the same filter, lines 202-207) |
| NextData.FooterLinksDistinct | packages/harvest/src/extractors/next-data.ts:169-174 | footer labels are distinct |
| NextData.FooterLinksFirst | packages/harvest/src/extractors/next-data.ts:149-174 | each footer link is the first accepted anchor with its label, numbered by its place among all accepted anchors (numbers have gaps where a repeated label was dropped) |
| NextData.ExtractBrandLogos | packages/harvest/src/extractors/next-data.ts:177-208 | the loops push the logos of every brand match, then keep the first logo per name |
| NextData.LogoNameStripsPrefix | packages/harvest/src/extractors/next-data.ts:192-197 | an anchor titled `View information for X` with an image gives the logo named `X` |
| NextData.BrandLogosProperties | packages/harvest/src/extractors/next-data.ts:196-207 | brand names are distinct; every logo has a name and an image URL |
| AiActions.ScanFirstLine | packages/shared/src/ai-actions.ts:40-41 | the multi-line `^LABEL:` pattern matches at the first line that starts with `LABEL:` and where the rest of the pattern succeeds; earlier lines without the label are skipped |
| AiActions.ScanAbsent | packages/shared/src/ai-actions.ts:40-41 | without a line starting `LABEL:` the pattern matches nowhere |
| AiActions.ExtractValueShape | packages/shared/src/ai-actions.ts:39-43 | an extracted value is trimmed and lies on one line |
| AiActions.ExtractValueOfLine | packages/shared/src/ai-actions.ts:39-43 | on the first line starting `LABEL:` with a non-blank rest, the value is that rest trimmed |
| AiActions.ExtractValueAbsent | packages/shared/src/ai-actions.ts:42 | without a `LABEL:` line the value is `""` |
| AiActions.EmptyValueTakesNextLine | packages/shared/src/ai-actions.ts:40 | a label with nothing after it takes the next line, since `\s*` crosses the line end (`AI_SUMMARY:\nBEST_FOR:` gives `BEST_FOR:`) |
| AiActions.ListStartSpec | packages/shared/src/ai-actions.ts:46 | `\s*\n` skips blanks ending in a line end, the last such line end in the blank run |
| AiActions.ListStartAfterBlanks | packages/shared/src/ai-actions.ts:46 | after `LABEL:` and trailing blanks, the list starts on the next non-blank line |
| AiActions.ExtractListItemsShape | packages/shared/src/ai-actions.ts:45-53 | every list item is non-empty, trimmed and on one line |
| AiActions.ExtractListItemsAbsent | packages/shared/src/ai-actions.ts:48 | without a `LABEL:` line there are no items |
| AiActions.ExtractListItemsOfLine | packages/shared/src/ai-actions.ts:45-53 | after a bare `LABEL:` line, the items are those of the consecutive `- ` lines that follow, `- ` stripped, trimmed, empties dropped |
| AiActions.RenderSeo | packages/shared/src/ai-actions.ts:63-70 | the documented SEO format: one `LABEL: value` line per field in order, keywords joined with `, ` |
| AiActions.KeywordsRoundTrip | packages/shared/src/ai-actions.ts:78-80 | splitting a `, `-joined list of clean keywords gives the list back |
| AiActions.SeoRoundTrip | packages/shared/src/ai-actions.ts:72-84 | parsing the documented rendering of clean SEO fields gives the fields back |
| AiActions.PairLines | packages/shared/src/ai-actions.ts:137-147 | the loop with `currentQ` computes the pairing of `Q:`/`A:` lines |
| AiActions.PairsShape | packages/shared/src/ai-actions.ts:139-145 | every pair has a non-empty question; both sides are trimmed and on one line |
| AiActions.OneLineNoPairs | packages/shared/src/ai-actions.ts:141-146 | a single line never gives a pair |
| AiActions.AnswerIsNoQuestion | packages/shared/src/ai-actions.ts:139-143 | an `A:` line is never taken for a question |
| AiActions.PairsRoundTrip | packages/shared/src/ai-actions.ts:137-147 | pairing the `Q:`/`A:` rendering of clean pairs gives them back |
| AiActions.ParseFaqBlockAsWritten | packages/shared/src/ai-actions.ts:130-150 | (as written) the lazy capture ends at the first line end, `$` being multi-line, so no pair is ever returned |
| AiActions.FaqCaptureIsOneLine | packages/shared/src/ai-actions.ts:131 | (as written) the captured block is a single line |
| AiActions.ParseFaqBlock | packages/shared/src/ai-actions.ts:130-150 | (corrected) pairs the lines of the block up to a blank line followed by a label, or to the end |
| AiActions.FaqAbsent | packages/shared/src/ai-actions.ts:132 | without a `FAQ:` line there are no pairs |
| AiActions.FaqBlockCapture | packages/shared/src/ai-actions.ts:131 | (corrected) a block without blank lines is captured whole |
| AiActions.FaqRoundTrip | packages/shared/src/ai-actions.ts:113-150 | (corrected) parsing `FAQ:` followed by the `Q:`/`A:` lines of clean pairs gives the pairs back |
| AiActions.FaqExample | packages/shared/src/ai-actions.ts:113-115 | `FAQ:\nQ: Why?\nA: Because.` gives one pair |
| AiActions.ParseGeoOutput | packages/shared/src/ai-actions.ts:118-128 | the summary is the `AI_SUMMARY` value, the five lists are those labels' items, and the FAQ is the corrected pairing |
| EntryCreator.MakeLink | packages/loader/src/entry-creator.ts:4-6 | a `Link` object whose `sys` holds exactly `type`, `linkType` and `id`, with the given id and link type (`Entry` by default) |
| EntryCreator.MakeLinkInjective | packages/loader/src/entry-creator.ts:4-6 | distinct ids or link types give distinct links |
| EntryCreator.Localize | packages/loader/src/entry-creator.ts:8-10 | an object with the single key `en-US` holding the value |
| EntryCreator.RefLinkType | packages/loader/src/entry-creator.ts:75-86 | the link type, the marker's `_linkType` or else `Entry`, is always truthy |
| EntryCreator.ResolveItem | packages/loader/src/entry-creator.ts:73-88 | a `_localRef` marker whose id maps to a non-empty real id becomes a link to it, with the marker's link type; anything else is left as it is |
| EntryCreator.ResolveItems | packages/loader/src/entry-creator.ts:82-91 | an array is resolved element by element, same length |
| EntryCreator.ResolvedLocales | packages/loader/src/entry-creator.ts:72-92 | resolving keeps the locales of a field |
| EntryCreator.ResolvedFields | packages/loader/src/entry-creator.ts:69-95 | resolving keeps the fields and each field's locales |
| EntryCreator.ResolveReferences | packages/loader/src/entry-creator.ts:65-96 | the nested loops over fields and locales rewrite each value as the resolution rules say, on a copy |
| EntryCreator.ResolveLocales | packages/loader/src/entry-creator.ts:72-92 | the inner loop rewrites each locale value of one field |
| EntryCreator.NothingLeftToResolve | packages/loader/src/entry-creator.ts:73-91 | after resolution no mapped marker is left, neither as a value nor as an array element |
| EntryCreator.ItemSettled | packages/loader/src/entry-creator.ts:84-88 | a resolved element is settled: resolving it again changes nothing |
| EntryCreator.ResolveValueIdempotent | packages/loader/src/entry-creator.ts:73-91 | resolving a value twice equals resolving it once |
| EntryCreator.ResolvedFieldsIdempotent | packages/loader/src/entry-creator.ts:65-96 | `resolveReferences` is idempotent |
| EntryCreator.ResolveValueKeeps | packages/loader/src/entry-creator.ts:73-91 | plain values and unmapped markers are unchanged; arrays keep their length |
| EntryCreator.ById | packages/loader/src/entry-creator.ts:103 | the map holds every entry's `localId`, each key mapping to an entry with that id |
| EntryCreator.ByIdLastWins | packages/loader/src/entry-creator.ts:103 | with repeated ids the last entry wins |
| EntryCreator.Visit | packages/loader/src/entry-creator.ts:107-115 | the recursive visit marks the entry, places it after its dependencies, and on an acyclic graph keeps every dependency before its dependent |
| EntryCreator.VisitDependencies | packages/loader/src/entry-creator.ts:110-113 | the dependency loop visits every dependency present in the map |
| EntryCreator.SortByDependencies | packages/loader/src/entry-creator.ts:102-122 | the result has one entry per distinct id, drawn from the input, covering every id; a permutation when ids are unique; and dependencies first when the graph is acyclic |
| EntryCreator.UniqueIdsPermutation | packages/loader/src/entry-creator.ts:103-118 | with unique ids, a duplicate-free cover of the ids is a permutation of the entries |
| CheerioAdapter.CutFragmentSpec | packages/harvest/src/adapters/cheerio.ts:28 | `replace(/#.*$/, '')` keeps the text before the leftmost `#` that has no line terminator after it; a text without `#` is unchanged |
| CheerioAdapter.SlugOfPath | packages/harvest/src/adapters/cheerio.ts:26-29 | the slug is `home` exactly at the root; elsewhere it is the non-empty path segments joined with `/`, which split back into those segments |
| CheerioAdapter.PageTitleRules | packages/harvest/src/adapters/cheerio.ts:31-36 | the title chain never comes out empty; the page title is the first `h1` when non-empty, otherwise the `<title>` text cut at its first pipe character, or `Untitled` (the record's `title`, line 85) |
| CheerioAdapter.TitleCut | packages/harvest/src/adapters/cheerio.ts:31-34 | the cut title contains no pipe character; an empty title gives `Untitled`, a title without one is kept |
| CheerioAdapter.MetaFallbacks | packages/harvest/src/adapters/cheerio.ts:38-47 | meta and og titles fall back to the title chain and are never empty; the og description is empty iff both it and the meta description are; the og image is empty iff the tag gives nothing, else the tag's address resolved (the record's `ogImage`, line 93) |
| CheerioAdapter.BodyText | packages/harvest/src/adapters/cheerio.ts:49-65 | the loops take the first matching content container's collapsed text, and the paragraph fallback when that gave nothing |
| CheerioAdapter.ContainerTextShape | packages/harvest/src/adapters/cheerio.ts:54 | container text has at most 500 characters, single spaces only, and no leading space |
| CheerioAdapter.BodyTextRules | packages/harvest/src/adapters/cheerio.ts:49-65 | body text has at most 500 characters; the container wins when non-empty; otherwise the long (over 20 characters) texts among the first three paragraphs |
| CheerioAdapter.DescriptionRules | packages/harvest/src/adapters/cheerio.ts:87 | description = meta description, else og description, else body text; empty only when all three are |
| CheerioAdapter.HeroRules | packages/harvest/src/adapters/cheerio.ts:67-75 | the hero subtitle is present only when non-blank, then trimmed; without a hero link there is neither call-to-action text nor link; the link exists iff the `href` is non-empty and is then that `href`, resolved |
| CheerioAdapter.ScrapeWithCheerio | packages/harvest/src/adapters/cheerio.ts:9-102 | a failed response gives the error `Failed to fetch <url>: HTTP <status>` and only then; otherwise every page field is the corresponding rule, images from the corrected image extractor (`Assets.ExtractImages`) and sections from the section extractor |
| Json.Or | packages/harvest/src/extractors/next-data.ts:26 | JavaScript's logical or: the first value when truthy, else the second |
| Json.StringOr | packages/harvest/src/extractors/next-data.ts:52-54 | a string or else a fallback: a non-empty string is kept, a falsy value gives the fallback |

## Left out

- Fetching, the network and the browser: `fetch` in `packages/harvest/src/adapters/cheerio.ts`, all of `packages/harvest/src/adapters/playwright.ts`, and asset downloads. `ScrapeWithCheerio` takes the response status, the parsed URL and the query results as parameters.
- Filesystem orchestration, console reporting, the CLI, configuration and environment, logging, and the CMS write API. This covers `createEntry`, `publishEntry` and `createAndPublishEntry`, the structured and page loaders, the asset uploader and the AI enrichment poller. All of these are I/O or remote calls.
- Foreign libraries, whose results are inputs to the model:
  - the cheerio selector engine and HTML parsing;
  - `JSON.parse`, represented by an `Option<Json>` or a parse function that is a parameter;
  - `new URL`, represented by the origin as an `Option` (`None` when the base does not parse) and the pathname;
  - `decodeURIComponent`;
  - the HTML-to-text conversion in `stripHtml` and in the hero and footer fragments.
- Regex tokenisation of `<style>` text: the colour tokens, the inline `font-family` values, the Google Fonts `family=` names and the `@font-face` names arrive as lists, in the order the regexes would find them.
- `formatDetectionReport`: display formatting with floating-point `toFixed`.
- Timestamps and other clock readings.
- The AI output parsers treat only `\n` as a line end. JavaScript's `^`, `$` and `.` also stop at `\r`, U+2028 and U+2029, and `\s` matches more characters than the model's blank set.
- Lengths and slices count characters. JavaScript counts UTF-16 code units, so the 300- and 500-character caps and the label bounds differ on text outside the Basic Multilingual Plane.
- JavaScript numbers are mathematical reals. `String(n)` is exact only for integers; a fractional number is written as its integer part.
- Object keys are unordered maps. The order in which `Object.entries` visits fields and locales does not matter to the result, which is what the model states.
- `idMap` lookups see only the map's own keys. Prototype keys such as `constructor` are not modelled.
- `null` elements inside the Next.js arrays, where the code would throw a `TypeError`, are not modelled.
- Json.StringOr: a truthy value that is not a string (a number or an object, say) gives the fallback, where `v || ''` would keep the value. The product and navigation records hold strings. For `sku` the code then calls `.split(',')` on that value, which throws a `TypeError` for a number or another non-string. `NextData.SkuOf` gives the empty string there instead.
- NextData.NavChildren: `Number(group_type) === 0` is recognised for decimal numerals made of zeros (with sign, point and surrounding blanks), for `0`, `false`, `null` and the empty string. The exponent and hexadecimal forms are not recognised.
- NextData.StripHtml: the text extraction is a parameter, so only the cap at 300 characters and the empty case are stated.
- Assets.ExtractImages: tests for `data:` on the reference before resolution, the evident intent, not on the resolved URL as the code does. On a page with an inline image under a parsable base it lists nothing where the code lists `origin/data:…`. The code's behaviour is `Assets.ExtractImagesAsWritten`, and `Assets.CandidatesAgreeWithoutInline` shows the two agree on every page without inline images.
- Assets.ImageCandidateSound, Assets.CandidatesFromImages, Assets.CandidateListed, Assets.ExtractImagesSound and Assets.ExtractImagesComplete: state the corrected extractor, for the same reason. Their as-written counterparts are `Assets.CandidatesAsWrittenFrom`, `Assets.CandidateAsWrittenListed`, `Assets.ExtractImagesAsWrittenSound` and `Assets.ExtractImagesAsWrittenComplete`.
- AiActions.ParseGeoOutput: `aiFaq` is the corrected FAQ pairing (`AiActions.ParseFaqBlock`). The code's parser (`AiActions.ParseFaqBlockAsWritten`) gives no pairs on every input, so the code's `aiFaq` is always empty, where the model's holds one pair per question and answer.
- CheerioAdapter.ScrapeWithCheerio: the page's `images` come from the corrected extractor, so an inline image under a parsable base is not listed as the code would list it.
- Strings.ToLower: lower-cases the ASCII capitals `A`–`Z` only. JavaScript's `toLowerCase` also maps other capitals, such as `À`, the Kelvin sign U+212A (to `k`) and U+0130 (to two code units). So the keyword tests built on it (`Assets.CategorizeImage`, the ignored colours, background-image prefix, generic font names and product test in `Branding`, and the concept hints in `Taxonomy`) may differ on non-ASCII text.
- NextData.Navigation: when `atlasNav.content` parses to `null`, `navTree[0]` throws a `TypeError` that escapes `extractNextData`. The model returns no navigation items there instead, so `NextData.ExtractNextData` gives a payload where the code throws.
- Branding.ExtractFonts: `decodeURIComponent` throws a `URIError` on a malformed `%` escape in a Google Fonts family name, aborting `extractBranding`. The family names arrive already decoded, so this failure is not modelled.
- CheerioAdapter.ScrapeWithCheerio: of the branding and taxonomy records, its contract states only the favicon and the URL path. Their full contracts are on `Branding.ExtractBranding` and `Taxonomy.ExtractTaxonomy`, which it calls.
- `isFiltered`, `isTrackingPixel` and `categorizeImage` are stated through the extractors' lemmas and `Assets.CategorizeImage`. The small content-type tables of the orchestration code are not part of this model.

## Findings

| source | as written | input that shows it | evidently intended | confidence | as-written member | corrected member |
|---|---|---|---|---|---|---|
| packages/shared/src/ai-actions.ts:131 | The FAQ block is captured by a lazy group that ends at the first end-of-line anchor. In multi-line mode that is the end of the block's first line, so the block is one line and no question is ever paired with an answer. | `FAQ:\nQ: Why?\nA: Because.` gives no pairs | the block runs up to a blank line followed by the next label, or to the end of the text, and gives one pair per question and answer | high (not executed) | AiActions.ParseFaqBlockAsWritten | AiActions.ParseFaqBlock |
| packages/harvest/src/extractors/assets.ts:11-12 | The `data:` test runs after `makeAbsolute`. With an `http` base, a `data:` source is rewritten to `origin/data:...` and is kept. | `<img src="data:image/png;base64,AAAA" width="100" height="100">` with base `https://a.com` lists `https://a.com/data:image/png;base64,AAAA` | inline `data:` images are skipped | high (not executed) | Assets.DataUriKeptAsWritten | Assets.DataUriDropped |
