/** The site strategy detector (packages/harvest/src/auto-detect.ts): a
    first-match-wins classification of a fetched page. */
module AutoDetect {
  import opened Outcomes
  import opened Strings
  import opened Json
  import NextData

  datatype SiteStrategy = NextJs | NuxtJs | Gatsby | ReactStatic | Static | Blocked

  datatype Confidence = High | Medium | Low

  datatype DetectionResult = DetectionResult(
    strategy: SiteStrategy,
    framework: Option<string>,
    frameworkVersion: Option<string>,
    hasStructuredData: bool,
    hasProducts: bool,
    hasNavigation: bool,
    pageSize: nat,
    confidence: Confidence,
    recommendation: string)

  /** What the detector asks of the parsed document, besides the raw HTML text. */
  datatype PageQueries = PageQueries(
    nextDataText: string,        // `$('#__NEXT_DATA__').html()`; "" when there is no such element
    nextDataJson: Option<Json>,  // `JSON.parse` of that text; None when it throws
    h1Count: nat,
    h2Count: nat,
    mainCount: nat,
    articleCount: nat,
    navCount: nat,
    productMarkedCount: nat)     // matches of `[class*="product"], [data-product]`

  const SmallPageThreshold: nat := 5000

  // the advice each outcome carries
  const NextRecommendation: string := "Use __NEXT_DATA__ structured JSON extraction"
  const NuxtRecommendation: string := "Parse __NUXT__ or __NUXT_DATA__ payload"
  const GatsbyRecommendation: string := "Use static HTML extraction with Cheerio"
  const BlockedRecommendation: string := "Site blocked scraping. Try: 1) Save HTML from browser, 2) Wayback Machine, 3) Firecrawl"
  const ReactRecommendation: string := "JS-rendered React app. Use Playwright with DOM extraction or Firecrawl"
  const StaticRecommendation: string := "Use Cheerio CSS selector extraction"

  predicate HasNuxtMarker(html: string) {
    Contains(html, "__NUXT__") || Contains(html, "__NUXT_DATA__") || Contains(html, "_nuxt")
  }

  predicate HasGatsbyMarker(html: string) {
    Contains(html, "___gatsby") || Contains(html, "gatsby-")
  }

  predicate HasReactMarker(html: string) {
    Contains(html, "data-reactroot") || Contains(html, "_reactRoot") || Contains(html, "__REACT_DEVTOOLS")
  }

  /** A skeleton page: too small, or without any `h1`, `main` or `article`. */
  predicate LooksBlocked(html: string, q: PageQueries) {
    |html| < SmallPageThreshold || (q.h1Count == 0 && q.mainCount == 0 && q.articleCount == 0)
  }

  predicate HasGoodStructure(q: PageQueries) {
    q.h1Count > 0 || q.h2Count > 2 || q.navCount > 0
  }

  /** The product flag of the Next.js branch: `catalogData.homeProducts.items` is an array. */
  predicate NextHasProducts(parsed: Option<Json>) {
    IsArray(Path(NextData.UnwrapPageProps(parsed), ["catalogData", "homeProducts", "items"]))
  }

  /** The navigation flag of the Next.js branch: `pageData.atlasNav.content` is truthy. */
  predicate NextHasNavigation(parsed: Option<Json>) {
    Truthy(Path(NextData.UnwrapPageProps(parsed), ["pageData", "atlasNav", "content"]))
  }

  /** `detectStrategy(html, url)`; the URL is unused by the source. */
  function DetectStrategy(html: string, q: PageQueries): (r: DetectionResult)
    ensures r.pageSize == |html|
    // precedence: each strategy is chosen exactly when every earlier rule failed
    ensures r.strategy == NextJs <==> q.nextDataText != ""
    ensures r.strategy == NuxtJs <==> q.nextDataText == "" && HasNuxtMarker(html)
    ensures r.strategy == Gatsby <==>
      q.nextDataText == "" && !HasNuxtMarker(html) && HasGatsbyMarker(html)
    ensures r.strategy == Blocked <==>
      q.nextDataText == "" && !HasNuxtMarker(html) && !HasGatsbyMarker(html) && LooksBlocked(html, q)
    ensures r.strategy == ReactStatic <==>
      q.nextDataText == "" && !HasNuxtMarker(html) && !HasGatsbyMarker(html)
      && !LooksBlocked(html, q) && HasReactMarker(html)
  {
    var size := |html|;
    if q.nextDataText != "" then
      var parsed := q.nextDataJson;
      var version := if parsed.Some? && Truthy(Get(parsed, "buildId")) then Some("detected") else None;
      DetectionResult(NextJs, Some("Next.js"), version, true,
        parsed.Some? && NextHasProducts(parsed), parsed.Some? && NextHasNavigation(parsed),
        size, High, NextRecommendation)
    else if HasNuxtMarker(html) then
      DetectionResult(NuxtJs, Some("Nuxt.js"), None, true, false, false, size, Medium,
        NuxtRecommendation)
    else if HasGatsbyMarker(html) then
      DetectionResult(Gatsby, Some("Gatsby"), None, false, false, false, size, Medium,
        GatsbyRecommendation)
    else if LooksBlocked(html, q) then
      DetectionResult(Blocked, None, None, false, false, false, size, High,
        BlockedRecommendation)
    else if HasReactMarker(html) then
      DetectionResult(ReactStatic, Some("React"), None, false, false, false, size, Low,
        ReactRecommendation)
    else
      DetectionResult(Static, None, None, false, q.productMarkedCount > 0, q.navCount > 0, size,
        if HasGoodStructure(q) then Medium else Low, StaticRecommendation)
  }

  /** The Next.js branch: always high confidence with structured data; the flags come
      from the unwrapped payload and are all false when it does not parse. */
  lemma NextJsBranch(html: string, q: PageQueries)
    requires q.nextDataText != ""
    ensures var r := DetectStrategy(html, q);
      && r.confidence == High && r.hasStructuredData
      && (r.hasProducts <==> q.nextDataJson.Some? && NextHasProducts(q.nextDataJson))
      && (r.hasNavigation <==> q.nextDataJson.Some? && NextHasNavigation(q.nextDataJson))
      && (r.frameworkVersion.Some? <==> q.nextDataJson.Some? && Truthy(Get(q.nextDataJson, "buildId")))
  {
  }

  /** The static fallback: medium confidence exactly for a page with good structure,
      navigation exactly when there is a `nav`. */
  lemma StaticFallback(html: string, q: PageQueries)
    requires DetectStrategy(html, q).strategy == Static
    ensures var r := DetectStrategy(html, q);
      && (r.confidence == Medium <==> HasGoodStructure(q))
      && (r.confidence == Low <==> !HasGoodStructure(q))
      && (r.hasNavigation <==> q.navCount > 0)
      && (r.hasProducts <==> q.productMarkedCount > 0)
  {
  }

  /** Only the Next.js and static outcomes claim products or navigation, only Next.js
      reports a version, and structured data means Next.js or Nuxt. */
  lemma FlagsByStrategy(html: string, q: PageQueries)
    ensures var r := DetectStrategy(html, q);
      && (r.strategy !in {NextJs, Static} ==> !r.hasProducts && !r.hasNavigation)
      && (r.strategy != NextJs ==> r.frameworkVersion.None?)
      && (r.hasStructuredData <==> r.strategy in {NextJs, NuxtJs})
  {
  }

  /** Embedded Next.js data beats every marker and every size check: a small page
      that also carries Nuxt, Gatsby and React markers is still `nextjs`. */
  lemma NextDataWinsOverMarkers(html: string, q: PageQueries)
    requires q.nextDataText != ""
    requires HasNuxtMarker(html) && HasGatsbyMarker(html) && HasReactMarker(html)
    requires |html| < SmallPageThreshold
    ensures DetectStrategy(html, q).strategy == NextJs
    ensures DetectStrategy(html, q).confidence == High
  {
  }

  /** Malformed `__NEXT_DATA__` still classifies as Next.js, with no flags and no version. */
  lemma MalformedNextData(html: string, q: PageQueries)
    requires q.nextDataText != "" && q.nextDataJson.None?
    ensures var r := DetectStrategy(html, q);
      r.strategy == NextJs && r.hasStructuredData && !r.hasProducts && !r.hasNavigation
      && r.frameworkVersion.None?
  {
  }

  /** A page with both Nuxt and Gatsby markers is Nuxt. */
  lemma NuxtBeforeGatsby(html: string, q: PageQueries)
    requires q.nextDataText == ""
    requires HasNuxtMarker(html) && HasGatsbyMarker(html)
    ensures DetectStrategy(html, q).strategy == NuxtJs
  {
  }

  /** The blocked check runs before the React check: a page under 5000 characters
      without framework data is blocked even when it carries React markers. */
  lemma SmallReactShellIsBlocked(html: string, q: PageQueries)
    requires q.nextDataText == "" && !HasNuxtMarker(html) && !HasGatsbyMarker(html)
    requires |html| < SmallPageThreshold && HasReactMarker(html)
    ensures DetectStrategy(html, q).strategy == Blocked
    ensures DetectStrategy(html, q).confidence == High
  {
  }

  /** High confidence is given to exactly the Next.js and blocked outcomes. */
  lemma HighConfidenceStrategies(html: string, q: PageQueries)
    ensures DetectStrategy(html, q).confidence == High <==>
      DetectStrategy(html, q).strategy in {NextJs, Blocked}
  {
  }
}
