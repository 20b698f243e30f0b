/** The static-HTML scraper (packages/harvest/src/adapters/cheerio.ts): one fetched page
    becomes a `ScrapedPage`. The HTTP request, the HTML parser, the CSS selector engine
    and the URL parser are foreign; what they produce is given as parameters. */
module CheerioAdapter {
  import opened Outcomes
  import opened Strings
  import opened Seqs
  import opened Dom
  import opened Helpers
  import opened Json
  import Branding
  import Taxonomy
  import Sections
  import Assets

  // ---------------------------------------------------------------- inputs and record

  /** What the fetch answered: `response.ok` and `response.status`. */
  datatype Response = Response(ok: bool, status: int)

  /** What `new URL(url)` gives the scraper: the pathname, and the origin as
      `makeAbsolute` reads it back (`None` when that origin does not parse). */
  datatype Location = Location(pathname: string, origin: Option<string>)

  /** What the parsed document offers the extractors: the selector engine, the style
      tokens the branding extractor scans, the parsed JSON-LD blocks and the headings
      with their following siblings. */
  datatype Document = Document(
    select: Query, style: Branding.StyleTokens,
    jsonLd: seq<Option<Json>>, headings: seq<Sections.HeadingMatch>)

  /** `ScrapedPage`; the adapter fills every optional part except the hero fields. */
  datatype ScrapedPage = ScrapedPage(
    url: string, slug: string, title: string, h1: string,
    description: string, bodyText: string,
    metaTitle: string, metaDescription: string,
    ogTitle: string, ogDescription: string, ogImage: string,
    images: seq<string>,
    heroSubtitle: Option<string>, heroCtaText: Option<string>, heroCtaLink: Option<string>,
    sections: seq<Sections.Section>,
    branding: Branding.ScrapedBranding,
    taxonomyHints: Taxonomy.TaxonomyHints)

  /** `a || b` on strings: the empty string is falsy. */
  function OrElse(a: string, b: string): string {
    if a != "" then a else b
  }

  /** `s || undefined`. */
  function NonEmpty(s: string): Option<string> {
    if s != "" then Some(s) else None
  }

  // ---------------------------------------------------------------- slug

  predicate IsLineTerminator(c: char) {
    c == '\n' || c == '\r' || c == '\U{2028}' || c == '\U{2029}'
  }

  predicate NoTerminator(s: string) {
    forall i :: 0 <= i < |s| ==> !IsLineTerminator(s[i])
  }

  /** Where `/#.*$/` can match: a `#` with no line terminator after it, since `.` does
      not cross one and `$` is the end of the text. */
  predicate FragmentAt(s: string, j: nat)
    requires j < |s|
  {
    s[j] == '#' && NoTerminator(s[j + 1..])
  }

  /** `s.replace(/#.*$/, '')`. */
  function CutFragment(s: string): string {
    if s == [] then []
    else if FragmentAt(s, 0) then []
    else [s[0]] + CutFragment(s[1..])
  }

  /** The cut keeps the text up to the leftmost place the pattern matches, and all of
      it when there is none; a text without `#` is left alone. */
  lemma {:induction false} CutFragmentSpec(s: string)
    ensures var r := CutFragment(s);
      && StartsWith(s, r)
      && (|r| < |s| ==> FragmentAt(s, |r|))
      && (forall j :: 0 <= j < |r| ==> !FragmentAt(s, j))
      && ('#' !in s ==> r == s)
  {
    if s != [] && !FragmentAt(s, 0) {
      var t := s[1..];
      CutFragmentSpec(t);
      var r := CutFragment(s);
      assert r == [s[0]] + CutFragment(t);
      forall j | 0 <= j < |t| ensures FragmentAt(s, j + 1) == FragmentAt(t, j) {
        assert s[j + 2..] == t[j + 1..];
      }
      forall j | 0 <= j < |r| ensures !FragmentAt(s, j) {
        if j > 0 {
          assert FragmentAt(s, j) == FragmentAt(t, j - 1);
        }
      }
      if '#' !in s {
        assert '#' !in t by {
          forall i | 0 <= i < |t| ensures t[i] != '#' { assert t[i] == s[i + 1]; }
        }
      }
    }
  }

  /** The slug: the non-empty path segments joined with `/`, with a fragment cut off,
      or `home` for the root. */
  function Slug(pathname: string): string {
    var parts := Taxonomy.UrlPath(pathname);
    if |parts| > 0 then CutFragment(Join(parts, "/")) else "home"
  }

  /** For a pathname as the URL parser gives it (no `#`), the slug is `home` exactly at
      the root; elsewhere it is never empty and splits back into the path's segments. */
  lemma SlugOfPath(pathname: string)
    requires '#' !in pathname
    ensures var parts := Taxonomy.UrlPath(pathname);
      && (parts == [] ==> Slug(pathname) == "home")
      && (parts != [] ==>
            && Slug(pathname) == Join(parts, "/")
            && Slug(pathname) != ""
            && Split(Slug(pathname), '/') == parts)
  {
    var pieces := Split(pathname, '/');
    var parts := Taxonomy.UrlPath(pathname);
    SplitKeepsOut(pathname, '/', '#');
    NonEmptyKeepsOut(pieces, '#');
    NonEmptyKeepsOut(pieces, '/');
    if parts != [] {
      var joined := Join(parts, "/");
      JoinKeepsOut(parts, "/", '#');
      CutFragmentSpec(joined);
      SplitJoin(parts, '/');
      assert Split(joined, '/') == parts;
    }
  }

  // ---------------------------------------------------------------- title

  const TitleSelector := "title"
  const HeadingSelector := "h1"

  /** `$('h1').first().text().trim()`. */
  function Heading(select: Query): string {
    Trim(FirstText(select, HeadingSelector))
  }

  /** `$('title').text().trim() || h1 || 'Untitled'`. */
  function TitleChain(select: Query): string {
    OrElse(Trim(AllText(select, TitleSelector)), OrElse(Heading(select), "Untitled"))
  }

  /** `h1 || title.split('|')[0].trim()`. */
  function PageTitle(select: Query): string {
    OrElse(Heading(select), Trim(BeforeFirst(TitleChain(select), '|')))
  }

  /** The title chain never comes out empty; the page title is the h1 when there is
      one, and otherwise the `<title>` text cut at its first `|`, or `Untitled`. */
  lemma PageTitleRules(select: Query)
    ensures TitleChain(select) != ""
    ensures Heading(select) != "" ==> PageTitle(select) == Heading(select)
    ensures Heading(select) == "" ==> '|' !in PageTitle(select)
    ensures var t := Trim(AllText(select, TitleSelector));
      && (Heading(select) == "" && t == "" ==> PageTitle(select) == "Untitled")
      && (Heading(select) == "" && t != "" && '|' !in t ==> PageTitle(select) == t)
  {
    if Heading(select) == "" {
      TitleCut(AllText(select, TitleSelector));
    }
  }

  /** Without an h1, the page title is the trimmed `<title>` text or `Untitled`, cut
      at the first `|` and trimmed again. */
  lemma TitleCut(raw: string)
    ensures var t := Trim(raw);
      var r := Trim(BeforeFirst(OrElse(t, "Untitled"), '|'));
      && '|' !in r
      && (t == "" ==> r == "Untitled")
      && (t != "" && '|' !in t ==> r == t)
  {
    var t := Trim(raw);
    var chain := OrElse(t, "Untitled");
    BeforeFirstSpec(chain, '|');
    TrimKeepsOut(BeforeFirst(chain, '|'), '|');
    if t == "" {
      UntitledCut();
    } else if '|' !in t {
      TrimIdempotent(raw);
    }
  }

  lemma UntitledCut()
    ensures Trim(BeforeFirst("Untitled", '|')) == "Untitled"
  {
    var u := "Untitled";
    assert |u| == 8 && u[0] == 'U' && u[7] == 'd';
    assert !IsSpace('U') && !IsSpace('d');
    BeforeFirstSpec(u, '|');
    TrimmedIsTrimFixpoint(u);
  }

  // ---------------------------------------------------------------- meta fields

  const DescriptionSelector := "meta[name=\"description\"]"
  const TitleMetaSelector := "meta[name=\"title\"]"
  const OgTitleSelector := "meta[property=\"og:title\"]"
  const OgDescriptionSelector := "meta[property=\"og:description\"]"
  const OgImageSelector := "meta[property=\"og:image\"]"

  /** `$(sel).attr('content')?.trim() || ''`. */
  function Content(select: Query, sel: string): string {
    Trim(FirstAttr(select, sel, "content"))
  }

  function MetaDescription(select: Query): string {
    Content(select, DescriptionSelector)
  }

  function MetaTitle(select: Query): string {
    OrElse(Content(select, TitleMetaSelector), TitleChain(select))
  }

  function OgTitle(select: Query): string {
    OrElse(Content(select, OgTitleSelector), TitleChain(select))
  }

  function OgDescription(select: Query): string {
    OrElse(Content(select, OgDescriptionSelector), MetaDescription(select))
  }

  /** `ogImage ? makeAbsolute(ogImage, baseUrl) : ''`. */
  function OgImage(select: Query, origin: Option<string>): string {
    var raw := Content(select, OgImageSelector);
    if raw != "" then MakeAbsolute(raw, origin) else ""
  }

  /** The title fields are never empty, the og description falls back to the meta
      description, and the og image is empty exactly when the tag gives nothing;
      otherwise it is the tag's address, resolved. */
  lemma MetaFallbacks(select: Query, origin: Option<string>)
    ensures MetaTitle(select) != "" && OgTitle(select) != ""
    ensures Content(select, TitleMetaSelector) == "" ==> MetaTitle(select) == TitleChain(select)
    ensures Content(select, OgTitleSelector) == "" ==> OgTitle(select) == TitleChain(select)
    ensures OgDescription(select) == "" <==>
      Content(select, OgDescriptionSelector) == "" && MetaDescription(select) == ""
    ensures var raw := Content(select, OgImageSelector);
      && (OgImage(select, origin) == "" <==> raw == "")
      && (raw != "" ==> EndsWith(OgImage(select, origin), raw))
      && (origin.None? ==> OgImage(select, origin) == raw)
  {
    PageTitleRules(select);
    MakeAbsoluteRules(Content(select, OgImageSelector), origin);
  }

  // ---------------------------------------------------------------- body text

  const ContentSelectors: seq<string> := ["main", "article", ".content", ".main-content", "#content"]
  const BodyTextLimit := 500
  const ParagraphCount := 3
  const MinParagraphLength := 20

  /** The text of the first existing container among `sels`: whitespace runs
      collapsed, trimmed and capped. A container with no text still stops the search. */
  function ContainerText(select: Query, sels: seq<string>): Option<string> {
    if sels == [] then None
    else
      match FirstMatch(select, sels[0])
      case Some(e) => Some(Take(Trim(CollapseSpace(e.text)), BodyTextLimit))
      case None => ContainerText(select, sels[1..])
  }

  /** A paragraph's trimmed text, when it is longer than 20 characters. */
  function LongParagraph(e: Element): Option<string> {
    var text := Trim(e.text);
    if |text| > MinParagraphLength then Some(text) else None
  }

  /** The fallback: the long ones among the first three paragraphs, joined and capped. */
  function ParagraphText(select: Query): string {
    Take(Join(FilterMap(Take(select("p"), ParagraphCount), LongParagraph), " "), BodyTextLimit)
  }

  function BodyTextOf(select: Query): string {
    var c := ContainerText(select, ContentSelectors);
    if c.Some? && c.value != "" then c.value else ParagraphText(select)
  }

  /** The loops of the adapter: the content selectors in order, stopping at the first
      that matches, then the paragraphs when that gave nothing. */
  method BodyText(select: Query) returns (bodyText: string)
    ensures bodyText == BodyTextOf(select)
  {
    bodyText := "";
    var i := 0;
    while i < |ContentSelectors|
      invariant 0 <= i <= |ContentSelectors|
      invariant ContainerText(select, ContentSelectors[i..]) == ContainerText(select, ContentSelectors)
      invariant bodyText == ""
    {
      var content := FirstMatch(select, ContentSelectors[i]);
      if content.Some? {
        bodyText := Take(Trim(CollapseSpace(content.value.text)), BodyTextLimit);
        assert ContainerText(select, ContentSelectors) == Some(bodyText);
        break;
      }
      assert ContentSelectors[i..][1..] == ContentSelectors[i + 1..];
      i := i + 1;
    }
    if bodyText == "" {
      var ps := Take(select("p"), ParagraphCount);
      var paragraphs: seq<string> := [];
      for j := 0 to |ps|
        invariant paragraphs == FilterMap(ps[..j], LongParagraph)
      {
        FilterMapStep(ps, j, LongParagraph);
        var text := Trim(ps[j].text);
        if |text| > MinParagraphLength {
          paragraphs := paragraphs + [text];
        }
      }
      assert ps[..|ps|] == ps;
      bodyText := Take(Join(paragraphs, " "), BodyTextLimit);
    }
  }

  /** Whitespace left in the text is plain spaces, never two in a row. */
  predicate SingleSpaced(s: string) {
    && (forall i :: 0 <= i < |s| ==> (IsSpace(s[i]) ==> s[i] == ' '))
    && (forall i :: 0 <= i < |s| - 1 ==> !(IsSpace(s[i]) && IsSpace(s[i + 1])))
  }

  lemma SingleSpacedSlice(s: string, a: nat, b: nat)
    requires a <= b <= |s| && SingleSpaced(s)
    ensures SingleSpaced(s[a..b])
  {
    var t := s[a..b];
    forall i | 0 <= i < |t| - 1 ensures !(IsSpace(t[i]) && IsSpace(t[i + 1])) {
      assert t[i] == s[a + i] && t[i + 1] == s[a + i + 1];
    }
  }

  /** A container's text is capped, single-spaced and starts with no whitespace. */
  lemma {:induction false} ContainerTextShape(select: Query, sels: seq<string>)
    ensures var c := ContainerText(select, sels);
      c.Some? ==>
        && |c.value| <= BodyTextLimit
        && SingleSpaced(c.value)
        && (c.value == [] || !IsSpace(c.value[0]))
  {
    if sels != [] {
      match FirstMatch(select, sels[0])
      case Some(e) =>
        ContainerShape(e.text);
      case None =>
        ContainerTextShape(select, sels[1..]);
    }
  }

  lemma ContainerShape(text: string)
    ensures var v := Take(Trim(CollapseSpace(text)), BodyTextLimit);
      SingleSpaced(v) && (v == [] || !IsSpace(v[0]))
  {
    var collapsed := CollapseSpace(text);
    CollapseSpaceSpec(text);
    TrimSingleSpaced(collapsed);
    var trimmed := Trim(collapsed);
    TrimSpec(collapsed);
    SingleSpacedSlice(trimmed, 0, |Take(trimmed, BodyTextLimit)|);
  }

  lemma TrimSingleSpaced(s: string)
    requires SingleSpaced(s)
    ensures SingleSpaced(Trim(s))
  {
    var lead := TrimStart(s);
    TrimStartSuffix(s);
    TrimEndPrefix(lead);
    SingleSpacedSlice(s, |s| - |lead|, |s|);
    SingleSpacedSlice(lead, 0, |Trim(s)|);
  }

  /** The body text is capped at 500 characters; when no container gave text it is
      made of at most three paragraphs, each a trimmed paragraph text longer than 20
      characters, in document order. */
  lemma BodyTextRules(select: Query)
    ensures |BodyTextOf(select)| <= BodyTextLimit
    ensures var c := ContainerText(select, ContentSelectors);
      && (c.Some? && c.value != "" ==> BodyTextOf(select) == c.value && SingleSpaced(c.value))
      && (c.None? || c.value == "" ==> BodyTextOf(select) == ParagraphText(select))
    ensures var paragraphs := FilterMap(Take(select("p"), ParagraphCount), LongParagraph);
      && |paragraphs| <= ParagraphCount
      && (forall i :: 0 <= i < |paragraphs| ==> |paragraphs[i]| > MinParagraphLength)
  {
    ContainerTextShape(select, ContentSelectors);
    var ps := Take(select("p"), ParagraphCount);
    var paragraphs := FilterMap(ps, LongParagraph);
    FilterMapMembers(ps, LongParagraph);
    forall i | 0 <= i < |paragraphs| ensures |paragraphs[i]| > MinParagraphLength {
      assert paragraphs[i] in paragraphs;
    }
  }

  /** `metaDescription || ogDescription || bodyText || ''`. */
  function Description(select: Query): string {
    OrElse(MetaDescription(select), OrElse(OgDescription(select), BodyTextOf(select)))
  }

  /** The description prefers the meta description, then the og description, then
      the body text, and is empty only when all three are. */
  lemma DescriptionRules(select: Query)
    ensures MetaDescription(select) != "" ==> Description(select) == MetaDescription(select)
    ensures MetaDescription(select) == "" && Content(select, OgDescriptionSelector) != "" ==>
      Description(select) == Content(select, OgDescriptionSelector)
    ensures Description(select) == "" <==>
      MetaDescription(select) == "" && Content(select, OgDescriptionSelector) == ""
      && BodyTextOf(select) == ""
    ensures Description(select) in
      {MetaDescription(select), Content(select, OgDescriptionSelector), BodyTextOf(select)}
  {
  }

  // ---------------------------------------------------------------- hero

  const HeroTextSelector := ".hero p, [class*=\"hero\"] p, .banner p"
  const HeroLinkSelector := ".hero a, [class*=\"hero\"] a, .banner a"

  function HeroSubtitle(select: Query): Option<string> {
    NonEmpty(Trim(FirstText(select, HeroTextSelector)))
  }

  function HeroCtaText(select: Query): Option<string> {
    NonEmpty(Trim(FirstText(select, HeroLinkSelector)))
  }

  /** `heroCtaEl.attr('href') ? makeAbsolute(heroCtaEl.attr('href')!, baseUrl) : undefined`. */
  function HeroCtaLink(select: Query, origin: Option<string>): Option<string> {
    var href := FirstAttr(select, HeroLinkSelector, "href");
    if href != "" then Some(MakeAbsolute(href, origin)) else None
  }

  /** The hero texts are present only when non-blank and then trimmed; the call to
      action text and link both come from the first hero link, and the link is the
      resolved `href`, never empty. */
  lemma HeroRules(select: Query, origin: Option<string>)
    ensures HeroSubtitle(select).Some? ==>
      var s := HeroSubtitle(select).value; s != "" && !IsSpace(s[0]) && !IsSpace(s[|s| - 1])
    ensures FirstMatch(select, HeroLinkSelector).None? ==>
      HeroCtaText(select).None? && HeroCtaLink(select, origin).None?
    ensures var href := FirstAttr(select, HeroLinkSelector, "href");
      && (HeroCtaLink(select, origin).Some? <==> href != "")
      && (href != "" ==>
            HeroCtaLink(select, origin).value != "" && EndsWith(HeroCtaLink(select, origin).value, href))
  {
    TrimSpec(FirstText(select, HeroTextSelector));
    MakeAbsoluteRules(FirstAttr(select, HeroLinkSelector, "href"), origin);
  }

  // ---------------------------------------------------------------- the page

  /** `scrapeWithCheerio(url)`: a response that is not OK is an error carrying the
      status; otherwise every field of the record comes from its rule above, and the
      extractors' results are put in unchanged. */
  method ScrapeWithCheerio(url: string, response: Response, loc: Location, doc: Document)
    returns (r: Result<ScrapedPage>)
    ensures r.Failure? <==> !response.ok
    ensures r.Failure? ==>
      r.message == "Failed to fetch " + url + ": HTTP " + IntToString(response.status)
    ensures r.Success? ==> (
      var p := r.value;
      var select := doc.select;
      && p.url == url
      && p.slug == Slug(loc.pathname)
      && p.title == PageTitle(select) && p.h1 == Heading(select)
      && p.description == Description(select) && p.bodyText == BodyTextOf(select)
      && p.metaTitle == MetaTitle(select) && p.metaDescription == MetaDescription(select)
      && p.ogTitle == OgTitle(select) && p.ogDescription == OgDescription(select)
      && p.ogImage == OgImage(select, loc.origin)
      && p.images == Dedup(Assets.Candidates(select("img"), loc.origin))
      && p.heroSubtitle == HeroSubtitle(select) && p.heroCtaText == HeroCtaText(select)
      && p.heroCtaLink == HeroCtaLink(select, loc.origin)
      && p.sections == Sections.SectionsOf(doc.headings)
      && p.branding.faviconUrl == Branding.ExtractFavicon(select, loc.origin)
      && p.taxonomyHints.urlPath == Taxonomy.UrlPath(loc.pathname))
  {
    if !response.ok {
      return Failure("Failed to fetch " + url + ": HTTP " + IntToString(response.status));
    }
    var select := doc.select;
    var origin := loc.origin;
    var bodyText := BodyText(select);
    var branding := Branding.ExtractBranding(select, origin, doc.style);
    var taxonomyHints := Taxonomy.ExtractTaxonomy(loc.pathname, select, doc.jsonLd);
    var sections := Sections.ExtractSections(doc.headings);
    var images := Assets.ExtractImages(select("img"), origin);
    var metaDescription := MetaDescription(select);
    var ogDescription := OgDescription(select);
    r := Success(ScrapedPage(
      url, Slug(loc.pathname), PageTitle(select), Heading(select),
      OrElse(metaDescription, OrElse(ogDescription, bodyText)), bodyText,
      MetaTitle(select), metaDescription, OgTitle(select), ogDescription,
      OgImage(select, origin), images,
      HeroSubtitle(select), HeroCtaText(select), HeroCtaLink(select, origin),
      sections, branding, taxonomyHints));
  }
}
