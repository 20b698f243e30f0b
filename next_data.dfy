/** The `__NEXT_DATA__` payload extractor (packages/harvest/src/extractors/next-data.ts):
    products, navigation, hero banners, footer links and brand logos read out of the
    JSON a Next.js page embeds. */
module NextData {
  import opened Outcomes
  import opened Strings
  import opened Seqs
  import opened Json
  import opened Dom

  const MaxNavDepth: nat := 2
  const MaxDescription: nat := 300
  const LogoNamePrefix: string := "View information for "

  /** One `div.hn-slide, .hn-slide` match: its first `img.hn-is-desktop, img`, its first
      `img.hn-is-mobile` and its first `a`, when it has them. */
  datatype Slide = Slide(desktopImg: Option<Element>, mobileImg: Option<Element>, link: Option<Element>)

  /** One `a[data-gtm-tracking="brand logo"], .brand-logo` match: whether it is an `img`,
      the element itself, its parent `a` and its first descendant `img`. */
  datatype BrandMatch = BrandMatch(isImg: bool, element: Element, parentAnchor: Option<Element>,
                                   firstImg: Option<Element>)

  /** What the foreign libraries give the extractor: `JSON.parse` (`None` when it throws),
      `cheerio.load(html).text()`, and the matches of the three selectors the extractor
      runs on the HTML fragments of the payload. */
  datatype Markup = Markup(
    parse: string -> Option<Json>,
    text: string -> string,
    slides: string -> seq<Slide>,
    footerAnchors: string -> seq<Element>,
    brandMatches: string -> seq<BrandMatch>)

  /** The value of JavaScript's binary `+`: a number, `NaN`, or a concatenated string. */
  datatype JsValue = Num(n: real) | NaN | Str(s: string)

  datatype Product = Product(
    name: string,
    sku: string,
    slug: string,
    price: Json,
    originalPrice: Option<JsValue>,
    currency: string,
    imageUrl: string,
    imageAlt: string,
    rating: Option<Json>,
    reviewCount: Option<Json>,
    offerFlag: Option<Json>,
    offerText: Option<Json>,
    shortDescription: string,
    url: string)

  datatype NavItem = NavItem(id: string, labelText: string, url: string, level: nat,
                             children: Subnav)
  /** The `children` of a navigation item: absent, or an array of items. */
  datatype Subnav = NoSubnav | Subnav(items: seq<NavItem>)

  datatype HeroBanner = HeroBanner(headline: string, imageDesktop: string, imageMobile: Option<string>,
                                   linkUrl: string, altText: string)

  datatype BrandLogo = BrandLogo(name: string, logoUrl: string, linkUrl: string)

  datatype NextDataPayload = NextDataPayload(
    products: seq<Product>,
    navigation: seq<NavItem>,
    heroBanners: seq<HeroBanner>,
    footerLinks: seq<NavItem>,
    brandLogos: seq<BrandLogo>,
    raw: Json)

  // ---------------------------------------------------------------- the payload

  /** `raw?.props?.pageProps?.pageProps || raw?.props?.pageProps`: some sites nest
      `pageProps` twice; the inner one is preferred when it is truthy. */
  function UnwrapPageProps(raw: Option<Json>): (pp: Option<Json>)
    ensures Truthy(Path(raw, ["props", "pageProps", "pageProps"])) ==>
      pp == Path(raw, ["props", "pageProps", "pageProps"])
    ensures !Truthy(Path(raw, ["props", "pageProps", "pageProps"])) ==>
      pp == Path(raw, ["props", "pageProps"])
  {
    var outer := Path(raw, ["props", "pageProps"]);
    PathAppend(raw, ["props", "pageProps"], ["pageProps"]);
    assert ["props", "pageProps"] + ["pageProps"] == ["props", "pageProps", "pageProps"];
    Or(Get(outer, "pageProps"), outer)
  }

  /** `scriptEl.html() || '{}'`. */
  function ScriptText(html: string): string {
    if html == "" then "{}" else html
  }

  /** `extractNextData(html, baseUrl)`; `script` is the content of the `#__NEXT_DATA__`
      element, `None` when the page has none. */
  method ExtractNextData(script: Option<string>, baseUrl: string, m: Markup) returns (r: Option<NextDataPayload>)
    ensures r.None? <==>
      script.None? || m.parse(ScriptText(script.value)).None?
      || !Truthy(UnwrapPageProps(m.parse(ScriptText(script.value))))
    ensures r.Some? ==>
      var raw := m.parse(ScriptText(script.value));
      var pp := UnwrapPageProps(raw);
      r.value == NextDataPayload(Products(pp, baseUrl, m.text), Navigation(pp, m.parse),
        HeroBanners(pp, m), FooterLinks(pp, m), BrandLogos(pp, m), raw.value)
  {
    if script.None? {
      return None;
    }
    var raw := m.parse(ScriptText(script.value));
    if raw.None? {
      return None;
    }
    var pageProps := UnwrapPageProps(raw);
    if !Truthy(pageProps) {
      return None;
    }
    var banners := ExtractHeroBanners(pageProps, m);
    var footer := ExtractFooterLinks(pageProps, m);
    var logos := ExtractBrandLogos(pageProps, m);
    r := Some(NextDataPayload(Products(pageProps, baseUrl, m.text), Navigation(pageProps, m.parse),
      banners, footer, logos, raw.value));
  }

  /** The payload is absent exactly when there is no script, it does not parse, or no
      `pageProps` is found: a payload that parses but lacks `props.pageProps` gives none. */
  lemma NoPagePropsNoPayload(raw: Json)
    requires Path(Some(raw), ["props", "pageProps"]) == None
    ensures UnwrapPageProps(Some(raw)) == None
  {
    PathAppend(Some(raw), ["props", "pageProps"], ["pageProps"]);
    assert ["props", "pageProps"] + ["pageProps"] == ["props", "pageProps", "pageProps"];
    PathOfNone(["pageProps"]);
  }

  // ---------------------------------------------------------------- products

  /** JavaScript's `a + b`: strings concatenate, everything else adds as numbers,
      with `undefined` giving `NaN`, `null` 0 and booleans 0 or 1. */
  function Plus(a: Option<Json>, b: Option<Json>): JsValue {
    if IsStringLike(a) || IsStringLike(b) then Str(ShowOption(a) + ShowOption(b))
    else
      match (ToNumber(a), ToNumber(b))
      case (Some(x), Some(y)) => Num(x + y)
      case _ => NaN
  }

  /** Values whose primitive form is a string: strings, arrays and objects. */
  predicate IsStringLike(v: Option<Json>) {
    v.Some? && (v.value.JString? || v.value.JArray? || v.value.JObject?)
  }

  /** `Number(v)` for the non-string primitives; `None` is `NaN`. */
  function ToNumber(v: Option<Json>): Option<real> {
    match v
    case Some(JNull) => Some(0.0)
    case Some(JBool(b)) => Some(if b then 1.0 else 0.0)
    case Some(JNumber(n)) => Some(n)
    case _ => None
  }

  /** `stripHtml(html)`: the trimmed text of the fragment, at most 300 characters. */
  function StripHtml(html: string, text: string -> string): (r: string)
    ensures |r| <= MaxDescription
    ensures html == "" ==> r == ""
  {
    if html == "" then "" else Take(Trim(text(html)), MaxDescription)
  }

  /** `item.price_range?.minimum_price`. */
  function MinimumPrice(item: Json): Option<Json> {
    Get(Get(Some(item), "price_range"), "minimum_price")
  }

  /** `finalPrice?.value`. */
  function FinalValue(item: Json): Option<Json> {
    Get(Get(MinimumPrice(item), "final_price"), "value")
  }

  /** `discount?.amount_off`. */
  function AmountOff(item: Json): Option<Json> {
    Get(Get(MinimumPrice(item), "discount"), "amount_off")
  }

  /** `finalPrice?.value || 0`. */
  function PriceOf(item: Json): Json {
    if Truthy(FinalValue(item)) then FinalValue(item).value else JNumber(0.0)
  }

  /** `discount?.amount_off ? finalPrice?.value + discount.amount_off : undefined`. */
  function OriginalPriceOf(item: Json): Option<JsValue> {
    if Truthy(AmountOff(item)) then Some(Plus(FinalValue(item), AmountOff(item))) else None
  }

  /** `finalPrice?.currency || 'AUD'`. */
  function CurrencyOf(item: Json): string {
    StringOr(Get(Get(MinimumPrice(item), "final_price"), "currency"), "AUD")
  }

  /** `(item.sku || '').split(',')[0].trim()`. */
  function SkuOf(item: Json): string {
    Trim(BeforeFirst(StringOr(Get(Some(item), "sku"), ""), ','))
  }

  /** `${baseUrl}/${item.url_key}${item.url_suffix || '.html'}`. */
  function ProductUrl(item: Json, baseUrl: string): string {
    var suffix := Get(Some(item), "url_suffix");
    baseUrl + "/" + ShowOption(Get(Some(item), "url_key")) + (if Truthy(suffix) then Show(suffix.value) else ".html")
  }

  /** One element of `items.map(...)` in `extractProducts`. */
  function ProductOf(item: Json, baseUrl: string, text: string -> string): Product {
    var it := Some(item);
    var image := Get(it, "small_image");
    var bonus := Get(Get(it, "offers"), "bonus");
    Product(
      StringOr(Get(it, "name"), ""),
      SkuOf(item),
      StringOr(Get(it, "url_key"), ""),
      PriceOf(item),
      OriginalPriceOf(item),
      CurrencyOf(item),
      StringOr(Get(image, "url"), ""),
      StringOr(Get(image, "label"), StringOr(Get(it, "name"), "")),
      Get(Get(it, "ratings"), "average"),
      Get(Get(it, "ratings"), "count"),
      Or(Get(bonus, "type"), Get(Get(it, "promotion_data"), "name")),
      Get(bonus, "title"),
      StripHtml(StringOr(Get(Get(it, "short_description"), "html"), ""), text),
      ProductUrl(item, baseUrl))
  }

  /** `pageProps?.catalogData?.homeProducts?.items`. */
  function ProductItems(pp: Option<Json>): Option<Json> {
    Get(Get(Get(pp, "catalogData"), "homeProducts"), "items")
  }

  /** `extractProducts(pageProps, baseUrl)`: one product per item, in order, and none when
      the items are not an array. */
  function Products(pp: Option<Json>, baseUrl: string, text: string -> string): (r: seq<Product>)
    ensures !IsArray(ProductItems(pp)) ==> r == []
    ensures IsArray(ProductItems(pp)) ==>
      var items := ProductItems(pp).value.items;
      |r| == |items| && forall i :: 0 <= i < |items| ==> r[i] == ProductOf(items[i], baseUrl, text)
  {
    var items := ProductItems(pp);
    if !IsArray(items) then []
    else seq(|items.value.items|, i requires 0 <= i < |items.value.items| => ProductOf(items.value.items[i], baseUrl, text))
  }

  /** The original price is the final price plus a non-zero discount, and absent without
      a discount; the price defaults to 0 and the currency to `AUD`. */
  lemma ProductPricing(item: Json)
    ensures !Truthy(AmountOff(item)) <==> OriginalPriceOf(item).None?
    ensures forall v: real, a: real ::
      FinalValue(item) == Some(JNumber(v)) && AmountOff(item) == Some(JNumber(a)) && a != 0.0
      ==> OriginalPriceOf(item) == Some(Num(v + a))
    ensures FinalValue(item).None? && AmountOff(item).Some? && AmountOff(item).value.JNumber? && Truthy(AmountOff(item))
      ==> OriginalPriceOf(item) == Some(NaN)
    ensures !Truthy(FinalValue(item)) ==> PriceOf(item) == JNumber(0.0)
    ensures Truthy(FinalValue(item)) ==> PriceOf(item) == FinalValue(item).value
    ensures !Truthy(Get(Get(MinimumPrice(item), "final_price"), "currency")) ==> CurrencyOf(item) == "AUD"
  {
  }

  /** The example of the pricing rule: a final price of 20 with 5 off was 25. */
  lemma OriginalPriceExample()
    ensures var minimum := JObject(map[
        "final_price" := JObject(map["value" := JNumber(20.0)]),
        "discount" := JObject(map["amount_off" := JNumber(5.0)])]);
      var item := JObject(map["price_range" := JObject(map["minimum_price" := minimum])]);
      OriginalPriceOf(item) == Some(Num(25.0)) && PriceOf(item) == JNumber(20.0) && CurrencyOf(item) == "AUD"
  {
    var minimum := JObject(map[
      "final_price" := JObject(map["value" := JNumber(20.0)]),
      "discount" := JObject(map["amount_off" := JNumber(5.0)])]);
    var item := JObject(map["price_range" := JObject(map["minimum_price" := minimum])]);
    assert MinimumPrice(item) == Some(minimum);
    assert FinalValue(item) == Some(JNumber(20.0));
    assert AmountOff(item) == Some(JNumber(5.0));
  }

  /** The SKU is the trimmed text before the first comma. */
  lemma SkuRule(item: Json)
    ensures ',' !in SkuOf(item) && Trim(SkuOf(item)) == SkuOf(item)
    ensures ',' !in StringOr(Get(Some(item), "sku"), "") ==> SkuOf(item) == Trim(StringOr(Get(Some(item), "sku"), ""))
  {
    CutAtComma(StringOr(Get(Some(item), "sku"), ""));
  }

  lemma CutAtComma(raw: string)
    ensures ',' !in Trim(BeforeFirst(raw, ',')) && Trim(Trim(BeforeFirst(raw, ','))) == Trim(BeforeFirst(raw, ','))
    ensures ',' !in raw ==> Trim(BeforeFirst(raw, ',')) == Trim(raw)
  {
    BeforeFirstSpec(raw, ',');
    TrimKeepsOut(BeforeFirst(raw, ','), ',');
    TrimIdempotent(BeforeFirst(raw, ','));
  }

  /** The URL is the base and the key, followed by the item's suffix or `.html`. */
  lemma ProductUrlRule(item: Json, baseUrl: string)
    ensures StartsWith(ProductUrl(item, baseUrl), baseUrl + "/")
    ensures !Truthy(Get(Some(item), "url_suffix")) ==> EndsWith(ProductUrl(item, baseUrl), ".html")
    ensures Get(Some(item), "url_key") == None ==> StartsWith(ProductUrl(item, baseUrl), baseUrl + "/undefined")
  {
    var head := baseUrl + "/";
    var key := ShowOption(Get(Some(item), "url_key"));
    var suffix := Get(Some(item), "url_suffix");
    var tail := if Truthy(suffix) then Show(suffix.value) else ".html";
    assert ProductUrl(item, baseUrl) == head + key + tail;
    assert (head + key + tail)[..|head|] == head;
    assert (head + key + tail)[..|head + key|] == head + key;
    assert (head + key + tail)[|head + key + tail| - |tail|..] == tail;
  }

  /** The text fields fall back to `''`, and the image alt text falls back from the
      image label to the product name, then to `''`. */
  lemma ProductFallbacks(item: Json, baseUrl: string, text: string -> string)
    ensures var p := ProductOf(item, baseUrl, text);
      var name := Get(Some(item), "name");
      var alt := Get(Get(Some(item), "small_image"), "label");
      && (!Truthy(name) ==> p.name == "")
      && (!Truthy(Get(Some(item), "url_key")) ==> p.slug == "")
      && (alt.Some? && alt.value.JString? && alt.value.s != "" ==> p.imageAlt == alt.value.s)
      && (!Truthy(alt) && name.Some? && name.value.JString? && name.value.s != "" ==>
            p.imageAlt == name.value.s && p.name == name.value.s)
      && (!Truthy(alt) && !Truthy(name) ==> p.imageAlt == "")
  {
  }

  // ---------------------------------------------------------------- navigation

  /** `Number(v) === 0` for a strictly decimal numeral: optional sign, zeros and at most
      one point; the empty or blank string is 0 as well. */
  predicate ZeroNumeral(t: string) {
    t == "" ||
    var u := if t[0] == '+' || t[0] == '-' then t[1..] else t;
    && u != "" && u != "."
    && (forall i :: 0 <= i < |u| ==> u[i] == '0' || u[i] == '.')
    && (forall i, j :: 0 <= i < j < |u| ==> !(u[i] == '.' && u[j] == '.'))
  }

  /** `Number(v) === 0`. */
  predicate NumberIsZero(v: Option<Json>) {
    match v
    case None => false
    case Some(JNull) => true
    case Some(JBool(b)) => !b
    case Some(JNumber(n)) => n == 0.0
    case Some(JString(s)) => ZeroNumeral(Trim(s))
    case Some(JArray(_)) => ZeroNumeral(Trim(Show(v.value)))
    case Some(JObject(_)) => false
  }

  /** The filter on children in `parseNavItem`. */
  predicate IsNavChild(child: Json) {
    NumberIsZero(Get(Some(child), "group_type"))
    && Truthy(Get(Some(child), "title")) && Truthy(Get(Some(child), "url"))
  }

  function NavChildren(items: seq<Json>): (r: seq<Json>)
    ensures |r| <= |items|
  {
    if items == [] then []
    else
      var init := NavChildren(items[..|items| - 1]);
      if IsNavChild(items[|items| - 1]) then init + [items[|items| - 1]] else init
  }

  /** `parseNavItem(item, depth)`: children are built only below the depth limit. */
  function ParseNavItem(item: Json, depth: nat): NavItem
    decreases MaxNavDepth - depth
  {
    var it := Some(item);
    var id := Get(it, "id");
    var children := Get(it, "children");
    var kids :=
      if depth < MaxNavDepth && IsArray(children) && |children.value.items| > 0 then
        var kept := NavChildren(children.value.items);
        Subnav(seq(|kept|, i requires 0 <= i < |kept| => ParseNavItem(kept[i], depth + 1)))
      else NoSubnav;
    NavItem(if Truthy(id) then Show(id.value) else "", StringOr(Get(it, "title"), ""),
      StringOr(Get(it, "url"), ""), depth, kids)
  }

  /** `item.group_type === '0' || item.group_type === 0`. */
  predicate IsTopGroup(item: Json) {
    Get(Some(item), "group_type") == Some(JString("0")) || Get(Some(item), "group_type") == Some(JNumber(0.0))
  }

  /** A top-level item is kept when it is in group 0 and its node has a label and a URL. */
  predicate KeptAtTop(item: Json) {
    IsTopGroup(item) && ParseNavItem(item, 1).labelText != "" && ParseNavItem(item, 1).url != ""
  }

  /** `.filter(group 0).map(item => parseNavItem(item, 1)).filter(item => item.label && item.url)`. */
  function TopNav(items: seq<Json>): (r: seq<NavItem>)
    ensures |r| <= |items|
  {
    if items == [] then []
    else
      var init, last := TopNav(items[..|items| - 1]), items[|items| - 1];
      if KeptAtTop(last) then init + [ParseNavItem(last, 1)] else init
  }

  /** `pageProps?.pageData?.atlasNav?.content`. */
  function NavContent(pp: Option<Json>): Option<Json> {
    Get(Get(Get(pp, "pageData"), "atlasNav"), "content")
  }

  /** `extractNavigation(pageProps)`: the content is parsed as JSON and the items are
      `navTree[0].children[0].children`. */
  function Navigation(pp: Option<Json>, parse: string -> Option<Json>): seq<NavItem> {
    var content := NavContent(pp);
    if !Truthy(content) then []
    else
      match parse(Show(content.value))
      case None => []
      case Some(tree) =>
        var root := Get(First(Some(tree)), "children");
        if !IsArray(root) then []
        else
          var mainNav := Get(First(root), "children");
          if !IsArray(mainNav) then [] else TopNav(mainNav.value.items)
  }

  /** A navigation tree whose levels count up from its root, with children only
      above the depth limit. */
  ghost predicate WellLeveled(n: NavItem)
    decreases n
  {
    && n.level <= MaxNavDepth
    && match n.children
       case NoSubnav => true
       case Subnav(kids) =>
         && n.level < MaxNavDepth
         && forall i :: 0 <= i < |kids| ==> kids[i].level == n.level + 1 && WellLeveled(kids[i])
  }

  /** A node has the level it was built at, no node is deeper than the limit, and its
      children are the nodes of the kept children (`NavChildrenFilter`), in order. */
  lemma {:induction false} ParseNavItemLeveled(item: Json, depth: nat)
    requires depth <= MaxNavDepth
    ensures ParseNavItem(item, depth).level == depth
    ensures WellLeveled(ParseNavItem(item, depth))
    ensures ParseNavItem(item, depth).children.Subnav? ==>
      && depth < MaxNavDepth && IsArray(Get(Some(item), "children"))
      && var kept := NavChildren(Get(Some(item), "children").value.items);
      && |ParseNavItem(item, depth).children.items| == |kept|
      && forall i :: 0 <= i < |kept| ==> ParseNavItem(item, depth).children.items[i] == ParseNavItem(kept[i], depth + 1)
    decreases MaxNavDepth - depth
  {
    var n := ParseNavItem(item, depth);
    if n.children.Subnav? {
      var kept := NavChildren(Get(Some(item), "children").value.items);
      forall i | 0 <= i < |n.children.items|
        ensures n.children.items[i].level == n.level + 1 && WellLeveled(n.children.items[i])
      {
        assert n.children.items[i] == ParseNavItem(kept[i], depth + 1);
        ParseNavItemLeveled(kept[i], depth + 1);
      }
    }
  }

  /** Every child `NavChildren` keeps is one of the input's and passes `IsNavChild`. */
  lemma {:induction false} NavChildrenSound(items: seq<Json>)
    ensures forall c :: c in NavChildren(items) ==> c in items && IsNavChild(c)
  {
    if items != [] {
      var init := items[..|items| - 1];
      NavChildrenSound(init);
      assert forall c :: c in init ==> c in items;
    }
  }

  /** The children kept from a prefix of the input are a prefix of those kept from it all. */
  lemma {:induction false} NavChildrenPrefix(items: seq<Json>, k: nat)
    requires k <= |items|
    ensures NavChildren(items[..k]) <= NavChildren(items)
    decreases |items|
  {
    if k < |items| {
      var init := items[..|items| - 1];
      assert items[..k] == init[..k];
      NavChildrenPrefix(init, k);
    } else {
      assert items[..k] == items;
    }
  }

  /** `NavChildren` is the filter by `IsNavChild` in input order: every passing child is
      kept, at the position given by the number of children kept before it. */
  lemma NavChildrenKept(items: seq<Json>, k: nat)
    requires k < |items| && IsNavChild(items[k])
    ensures |NavChildren(items[..k])| < |NavChildren(items)|
    ensures NavChildren(items)[|NavChildren(items[..k])|] == items[k]
  {
    var upto := items[..k + 1];
    assert upto[..k] == items[..k];
    assert NavChildren(upto) == NavChildren(items[..k]) + [items[k]];
    NavChildrenPrefix(items, k + 1);
  }

  /** Every node `TopNav` returns is the level-1 node of an item that is `KeptAtTop`. */
  lemma {:induction false} TopNavSound(items: seq<Json>)
    ensures forall n :: n in TopNav(items) ==>
      exists k :: 0 <= k < |items| && KeptAtTop(items[k]) && n == ParseNavItem(items[k], 1)
  {
    if items != [] {
      var init := items[..|items| - 1];
      TopNavSound(init);
      forall n | n in TopNav(items)
        ensures exists k :: 0 <= k < |items| && KeptAtTop(items[k]) && n == ParseNavItem(items[k], 1)
      {
        if n in TopNav(init) {
          var k :| 0 <= k < |init| && KeptAtTop(init[k]) && n == ParseNavItem(init[k], 1);
          assert items[k] == init[k];
        } else {
          assert KeptAtTop(items[|items| - 1]) && n == ParseNavItem(items[|items| - 1], 1);
        }
      }
    }
  }

  /** The nodes kept from a prefix of the items are a prefix of those kept from them all. */
  lemma {:induction false} TopNavPrefix(items: seq<Json>, k: nat)
    requires k <= |items|
    ensures TopNav(items[..k]) <= TopNav(items)
    decreases |items|
  {
    if k < |items| {
      var init := items[..|items| - 1];
      assert items[..k] == init[..k];
      TopNavPrefix(init, k);
    } else {
      assert items[..k] == items;
    }
  }

  /** Every item that is `KeptAtTop` has its level-1 node in `TopNav`, at the position
      given by the number of nodes kept before it. */
  lemma TopNavKept(items: seq<Json>, k: nat)
    requires k < |items| && KeptAtTop(items[k])
    ensures |TopNav(items[..k])| < |TopNav(items)|
    ensures TopNav(items)[|TopNav(items[..k])|] == ParseNavItem(items[k], 1)
  {
    var upto := items[..k + 1];
    assert upto[..k] == items[..k];
    assert TopNav(upto) == TopNav(items[..k]) + [ParseNavItem(items[k], 1)];
    TopNavPrefix(items, k + 1);
  }

  /** The top-level items are level-1 nodes with a label and a URL, all well leveled. */
  lemma {:induction false} TopNavShape(items: seq<Json>)
    ensures forall n :: n in TopNav(items) ==> n.level == 1 && n.labelText != "" && n.url != "" && WellLeveled(n)
  {
    if items != [] {
      TopNavShape(items[..|items| - 1]);
      ParseNavItemLeveled(items[|items| - 1], 1);
    }
  }

  lemma NavigationShape(pp: Option<Json>, parse: string -> Option<Json>)
    ensures forall n :: n in Navigation(pp, parse) ==> n.level == 1 && n.labelText != "" && n.url != "" && WellLeveled(n)
  {
    var content := NavContent(pp);
    if Truthy(content) && parse(Show(content.value)).Some? {
      var root := Get(First(parse(Show(content.value))), "children");
      if IsArray(root) && IsArray(Get(First(root), "children")) {
        TopNavShape(Get(First(root), "children").value.items);
      }
    }
  }

  // ---------------------------------------------------------------- hero banners

  /** `$(el).attr(name) || ''` on a selection that may be empty. */
  function OptAttr(e: Option<Element>, name: string): string {
    if e.Some? then Attr(e.value, name) else ""
  }

  /** `block.content || ''`. */
  function BlockHtml(block: Json): string {
    StringOr(Get(Some(block), "content"), "")
  }

  /** The banner a slide gives: none without a desktop image source. */
  function SlideBanner(s: Slide): Option<HeroBanner> {
    var src := OptAttr(s.desktopImg, "src");
    if src == "" then None
    else
      var mobile := OptAttr(s.mobileImg, "src");
      Some(HeroBanner(OptAttr(s.desktopImg, "alt"), src, if mobile == "" then None else Some(mobile),
        OptAttr(s.link, "href"), OptAttr(s.desktopImg, "alt")))
  }

  /** `pageProps?.categoryData?.homeCmsSlider?.items`. */
  function SliderItems(pp: Option<Json>): Option<Json> {
    Get(Get(Get(pp, "categoryData"), "homeCmsSlider"), "items")
  }

  function HeroBlocks(blocks: seq<Json>, m: Markup): seq<HeroBanner> {
    if blocks == [] then []
    else HeroBlocks(blocks[..|blocks| - 1], m) + FilterMap(m.slides(BlockHtml(blocks[|blocks| - 1])), SlideBanner)
  }

  function HeroBanners(pp: Option<Json>, m: Markup): seq<HeroBanner> {
    var items := SliderItems(pp);
    if !IsArray(items) then [] else HeroBlocks(items.value.items, m)
  }

  /** `extractHeroBanners(pageProps)`. */
  method ExtractHeroBanners(pp: Option<Json>, m: Markup) returns (banners: seq<HeroBanner>)
    ensures banners == HeroBanners(pp, m)
  {
    var sliderItems := SliderItems(pp);
    if !IsArray(sliderItems) {
      return [];
    }
    var blocks := sliderItems.value.items;
    banners := [];
    for b := 0 to |blocks|
      invariant banners == HeroBlocks(blocks[..b], m)
    {
      assert blocks[..b + 1][..b] == blocks[..b];
      var slides := m.slides(BlockHtml(blocks[b]));
      ghost var before := banners;
      for s := 0 to |slides|
        invariant banners == before + FilterMap(slides[..s], SlideBanner)
      {
        FilterMapStep(slides, s, SlideBanner);
        var desktop, mobile, link := slides[s].desktopImg, slides[s].mobileImg, slides[s].link;
        var imgSrc := OptAttr(desktop, "src");
        if imgSrc != "" {
          var mobileSrc := OptAttr(mobile, "src");
          var banner := HeroBanner(OptAttr(desktop, "alt"), imgSrc,
            if mobileSrc == "" then None else Some(mobileSrc), OptAttr(link, "href"), OptAttr(desktop, "alt"));
          assert SlideBanner(slides[s]) == Some(banner);
          AppendAssoc(before, FilterMap(slides[..s], SlideBanner), [banner]);
          banners := banners + [banner];
        }
      }
      assert slides[..|slides|] == slides;
    }
    assert blocks[..|blocks|] == blocks;
  }

  /** Every banner has a desktop image and its headline is its alt text; every slide with
      a desktop image source gives one. */
  lemma {:induction false} HeroBlocksProperties(blocks: seq<Json>, m: Markup)
    ensures forall h :: h in HeroBlocks(blocks, m) ==> h.imageDesktop != "" && h.headline == h.altText
    ensures forall b, s :: 0 <= b < |blocks| && 0 <= s < |m.slides(BlockHtml(blocks[b]))| ==>
      var slide := m.slides(BlockHtml(blocks[b]))[s];
      && (OptAttr(slide.desktopImg, "src") != "" <==> SlideBanner(slide).Some?)
      && (SlideBanner(slide).Some? ==> SlideBanner(slide).value in HeroBlocks(blocks, m))
  {
    HeroBannerShape(blocks, m);
    HeroSlidesListed(blocks, m);
  }

  lemma {:induction false} HeroBannerShape(blocks: seq<Json>, m: Markup)
    ensures forall h :: h in HeroBlocks(blocks, m) ==> h.imageDesktop != "" && h.headline == h.altText
  {
    if blocks != [] {
      HeroBannerShape(blocks[..|blocks| - 1], m);
      FilterMapMembers(m.slides(BlockHtml(blocks[|blocks| - 1])), SlideBanner);
    }
  }

  lemma {:induction false} HeroSlidesListed(blocks: seq<Json>, m: Markup)
    ensures forall b, s ::
      (0 <= b < |blocks| && 0 <= s < |m.slides(BlockHtml(blocks[b]))|
       && SlideBanner(m.slides(BlockHtml(blocks[b]))[s]).Some?) ==>
      SlideBanner(m.slides(BlockHtml(blocks[b]))[s]).value in HeroBlocks(blocks, m)
  {
    if blocks != [] {
      var init := blocks[..|blocks| - 1];
      HeroSlidesListed(init, m);
      FilterMapMembers(m.slides(BlockHtml(blocks[|blocks| - 1])), SlideBanner);
      forall b, s | 0 <= b < |blocks| && 0 <= s < |m.slides(BlockHtml(blocks[b]))|
        && SlideBanner(m.slides(BlockHtml(blocks[b]))[s]).Some?
        ensures SlideBanner(m.slides(BlockHtml(blocks[b]))[s]).value in HeroBlocks(blocks, m)
      {
        if b < |init| {
          assert blocks[b] == init[b];
        }
      }
    }
  }

  // ---------------------------------------------------------------- footer links

  const FooterIdPrefix := "footer-"

  /** `footer-${n}`. */
  function FooterId(n: nat): string {
    FooterIdPrefix + NatToString(n)
  }

  /** The link an anchor gives: a caption of 2 to 59 characters and a non-empty `href`. */
  function FooterCandidate(el: Element): Option<(string, string)> {
    var caption := Trim(el.text);
    var href := Attr(el, "href");
    if caption != "" && |caption| > 1 && |caption| < 60 && href != "" then Some((caption, href)) else None
  }

  /** The accepted `(caption, href)` pairs of every block, in document order. */
  function FooterPairs(blocks: seq<Json>, m: Markup): seq<(string, string)> {
    if blocks == [] then []
    else FooterPairs(blocks[..|blocks| - 1], m) + FilterMap(m.footerAnchors(BlockHtml(blocks[|blocks| - 1])), FooterCandidate)
  }

  /** The links before dedup: the n-th accepted pair gets id `footer-n`. */
  function Numbered(pairs: seq<(string, string)>): (r: seq<NavItem>)
    ensures |r| == |pairs|
  {
    if pairs == [] then []
    else
      var last := pairs[|pairs| - 1];
      Numbered(pairs[..|pairs| - 1]) + [NavItem(FooterId(|pairs|), last.0, last.1, 1, NoSubnav)]
  }

  lemma NumberedSnoc(pairs: seq<(string, string)>, p: (string, string))
    ensures Numbered(pairs + [p]) == Numbered(pairs) + [NavItem(FooterId(|pairs| + 1), p.0, p.1, 1, NoSubnav)]
  {
    assert (pairs + [p])[..|pairs|] == pairs;
  }

  function LabelOf(l: NavItem): string {
    l.labelText
  }

  /** `pageProps?.categoryData?.pageFooterNavigation?.items`. */
  function FooterItems(pp: Option<Json>): Option<Json> {
    Get(Get(Get(pp, "categoryData"), "pageFooterNavigation"), "items")
  }

  function FooterLinks(pp: Option<Json>, m: Markup): seq<NavItem> {
    var items := FooterItems(pp);
    if !IsArray(items) then [] else DedupBy(Numbered(FooterPairs(items.value.items, m)), LabelOf)
  }

  /** `extractFooterLinks(pageProps)`. */
  method ExtractFooterLinks(pp: Option<Json>, m: Markup) returns (r: seq<NavItem>)
    ensures r == FooterLinks(pp, m)
  {
    var footerItems := FooterItems(pp);
    if !IsArray(footerItems) {
      return [];
    }
    var blocks := footerItems.value.items;
    var links: seq<NavItem> := [];
    var id: nat := 1;
    ghost var pairs: seq<(string, string)> := [];
    for b := 0 to |blocks|
      invariant pairs == FooterPairs(blocks[..b], m)
      invariant links == Numbered(pairs) && id == |pairs| + 1
    {
      assert blocks[..b + 1][..b] == blocks[..b];
      var anchors := m.footerAnchors(BlockHtml(blocks[b]));
      links, id, pairs := PushFooterAnchors(anchors, links, id, pairs);
    }
    assert blocks[..|blocks|] == blocks;
    r := FilterSeen(links, LabelOf);
  }

  /** The inner loop of `extractFooterLinks`: each accepted anchor of one block is
      numbered on from `id`. */
  method PushFooterAnchors(anchors: seq<Element>, links0: seq<NavItem>, id0: nat, ghost pairs0: seq<(string, string)>)
    returns (links: seq<NavItem>, id: nat, ghost pairs: seq<(string, string)>)
    requires links0 == Numbered(pairs0) && id0 == |pairs0| + 1
    ensures pairs == pairs0 + FilterMap(anchors, FooterCandidate)
    ensures links == Numbered(pairs) && id == |pairs| + 1
  {
    links, id, pairs := links0, id0, pairs0;
    for a := 0 to |anchors|
      invariant pairs == pairs0 + FilterMap(anchors[..a], FooterCandidate)
      invariant links == Numbered(pairs) && id == |pairs| + 1
    {
      FilterMapStep(anchors, a, FooterCandidate);
      var c := FooterCandidate(anchors[a]);
      if c.Some? {
        AppendAssoc(pairs0, FilterMap(anchors[..a], FooterCandidate), [c.value]);
        NumberedSnoc(pairs, c.value);
        pairs := pairs + [c.value];
        links := links + [NavItem(FooterId(id), c.value.0, c.value.1, 1, NoSubnav)];
        id := id + 1;
      }
    }
    assert anchors[..|anchors|] == anchors;
  }

  /** The `seen`-Set filter both the footer and the brand-logo extractors end with. */
  method FilterSeen<T>(xs: seq<T>, key: T -> string) returns (r: seq<T>)
    ensures r == DedupBy(xs, key)
  {
    var seen: set<string> := {};
    r := [];
    for i := 0 to |xs|
      invariant r == DedupBy(xs[..i], key)
      invariant forall k :: k in seen <==> k in Keys(r, key)
    {
      DedupBySnoc(xs, i, key);
      var k := key(xs[i]);
      assert k in seen <==> k in Keys(r, key);
      if k !in seen {
        SeenSnoc(seen, r, xs[i], key);
        seen := seen + {k};
        r := r + [xs[i]];
      }
    }
    assert xs[..|xs|] == xs;
  }

  lemma {:induction false} NumberedAt(pairs: seq<(string, string)>)
    ensures forall i :: 0 <= i < |pairs| ==>
      Numbered(pairs)[i] == NavItem(FooterId(i + 1), pairs[i].0, pairs[i].1, 1, NoSubnav)
  {
    if pairs != [] {
      NumberedAt(pairs[..|pairs| - 1]);
    }
  }

  /** No two footer links share a label. */
  lemma FooterLinksDistinct(pp: Option<Json>, m: Markup)
    ensures NoDups(Keys(FooterLinks(pp, m), LabelOf))
  {
    var items := FooterItems(pp);
    if IsArray(items) {
      DedupByDistinct(Numbered(FooterPairs(items.value.items, m)), LabelOf);
    } else {
      assert Keys(FooterLinks(pp, m), LabelOf) == [];
    }
  }

  /** `l` is the link numbered `k + 1`, made from the first accepted pair with its label. */
  predicate FirstNumbered(pairs: seq<(string, string)>, l: NavItem, k: int) {
    && 0 <= k < |pairs| && l == NavItem(FooterId(k + 1), pairs[k].0, pairs[k].1, 1, NoSubnav)
    && forall j :: 0 <= j < k ==> pairs[j].0 != pairs[k].0
  }

  /** Each footer link is the first accepted pair with its label, numbered by its
      position among all accepted pairs (so numbers have gaps where a repeated label
      was dropped). */
  lemma FooterLinksFirst(pairs: seq<(string, string)>)
    ensures forall l :: l in DedupBy(Numbered(pairs), LabelOf) ==> exists k :: FirstNumbered(pairs, l, k)
  {
    forall l | l in DedupBy(Numbered(pairs), LabelOf) ensures exists k :: FirstNumbered(pairs, l, k) {
      var i :| 0 <= i < |DedupBy(Numbered(pairs), LabelOf)| && DedupBy(Numbered(pairs), LabelOf)[i] == l;
      FooterLinkFirst(pairs, i);
    }
  }

  /** The index of the pair the `i`-th footer link comes from. */
  lemma FooterLinkFirst(pairs: seq<(string, string)>, i: nat)
    requires i < |DedupBy(Numbered(pairs), LabelOf)|
    ensures exists k :: FirstNumbered(pairs, DedupBy(Numbered(pairs), LabelOf)[i], k)
  {
    var xs := Numbered(pairs);
    var r := DedupBy(xs, LabelOf);
    DedupByFirst(xs, LabelOf);
    NumberedAt(pairs);
    KeysAt(xs, LabelOf);
    var k := FirstIndex(Keys(xs, LabelOf), LabelOf(r[i]));
    assert r[i] == xs[k];
    forall j | 0 <= j < k ensures pairs[j].0 != pairs[k].0 {
      assert Keys(xs, LabelOf)[j] != LabelOf(r[i]);
    }
    assert FirstNumbered(pairs, r[i], k);
  }

  // ---------------------------------------------------------------- brand logos

  /** The logo a match gives: named by the anchor's title, else the image's alt, with
      the first `View information for ` removed; kept only with a name and an image. */
  function LogoOf(b: BrandMatch): Option<BrandLogo> {
    var anchor := if b.isImg then b.parentAnchor else Some(b.element);
    var img := if b.isImg then Some(b.element) else b.firstImg;
    var title := OptAttr(anchor, "title");
    var name := ReplaceFirst(if title != "" then title else OptAttr(img, "alt"), LogoNamePrefix, "");
    var logoUrl := OptAttr(img, "src");
    if name != "" && logoUrl != "" then Some(BrandLogo(name, logoUrl, OptAttr(anchor, "href"))) else None
  }

  function BrandBlocks(blocks: seq<Json>, m: Markup): seq<BrandLogo> {
    if blocks == [] then []
    else BrandBlocks(blocks[..|blocks| - 1], m) + FilterMap(m.brandMatches(BlockHtml(blocks[|blocks| - 1])), LogoOf)
  }

  function NameOf(l: BrandLogo): string {
    l.name
  }

  /** `pageProps?.categoryData?.homeBrands?.items`. */
  function BrandItems(pp: Option<Json>): Option<Json> {
    Get(Get(Get(pp, "categoryData"), "homeBrands"), "items")
  }

  function BrandLogos(pp: Option<Json>, m: Markup): seq<BrandLogo> {
    var items := BrandItems(pp);
    if !IsArray(items) then [] else DedupBy(BrandBlocks(items.value.items, m), NameOf)
  }

  /** `extractBrandLogos(pageProps)`. */
  method ExtractBrandLogos(pp: Option<Json>, m: Markup) returns (r: seq<BrandLogo>)
    ensures r == BrandLogos(pp, m)
  {
    var brandItems := BrandItems(pp);
    if !IsArray(brandItems) {
      return [];
    }
    var blocks := brandItems.value.items;
    var logos: seq<BrandLogo> := [];
    for b := 0 to |blocks|
      invariant logos == BrandBlocks(blocks[..b], m)
    {
      assert blocks[..b + 1][..b] == blocks[..b];
      var matches := m.brandMatches(BlockHtml(blocks[b]));
      ghost var before := logos;
      for e := 0 to |matches|
        invariant logos == before + FilterMap(matches[..e], LogoOf)
      {
        FilterMapStep(matches, e, LogoOf);
        var el := matches[e];
        var anchor := if el.isImg then el.parentAnchor else Some(el.element);
        var img := if el.isImg then Some(el.element) else el.firstImg;
        var title := OptAttr(anchor, "title");
        var name := ReplaceFirst(if title != "" then title else OptAttr(img, "alt"), LogoNamePrefix, "");
        var logoUrl := OptAttr(img, "src");
        var linkUrl := OptAttr(anchor, "href");
        if name != "" && logoUrl != "" {
          assert LogoOf(el) == Some(BrandLogo(name, logoUrl, linkUrl));
          AppendAssoc(before, FilterMap(matches[..e], LogoOf), [BrandLogo(name, logoUrl, linkUrl)]);
          logos := logos + [BrandLogo(name, logoUrl, linkUrl)];
        }
      }
      assert matches[..|matches|] == matches;
    }
    assert blocks[..|blocks|] == blocks;
    r := FilterSeen(logos, NameOf);
  }

  /** A title that starts with `View information for ` names the brand by the rest. */
  lemma LogoNameStripsPrefix(b: BrandMatch, rest: string)
    requires !b.isImg && Attr(b.element, "title") == LogoNamePrefix + rest
    requires rest != "" && OptAttr(b.firstImg, "src") != ""
    ensures LogoOf(b) == Some(BrandLogo(rest, OptAttr(b.firstImg, "src"), Attr(b.element, "href")))
  {
    var t := LogoNamePrefix + rest;
    assert StartsWith(t, LogoNamePrefix) by {
      assert t[..|LogoNamePrefix|] == LogoNamePrefix;
    }
    assert t[|LogoNamePrefix|..] == rest;
    assert ReplaceFirst(t, LogoNamePrefix, "") == "" + rest;
    assert "" + rest == rest;
  }

  /** Brand logos are distinct by name, each has a name and an image, and each is the
      first logo found with its name. */
  lemma BrandLogosProperties(pp: Option<Json>, m: Markup)
    ensures var r := BrandLogos(pp, m);
      && NoDups(Keys(r, NameOf))
      && (forall i :: 0 <= i < |r| ==> r[i].name != "" && r[i].logoUrl != "")
  {
    var items := BrandItems(pp);
    var r := BrandLogos(pp, m);
    if IsArray(items) {
      var xs := BrandBlocks(items.value.items, m);
      DedupByKeys(xs, NameOf);
      DedupSpec(Keys(xs, NameOf));
      DedupByFirst(xs, NameOf);
      BrandBlocksNamed(items.value.items, m);
      forall i | 0 <= i < |r| ensures r[i].name != "" && r[i].logoUrl != "" {
        var k := FirstIndex(Keys(xs, NameOf), NameOf(r[i]));
        assert r[i] == xs[k];
        assert xs[k] in xs;
      }
    } else {
      assert Keys(r, NameOf) == [];
    }
  }

  lemma {:induction false} BrandBlocksNamed(blocks: seq<Json>, m: Markup)
    ensures forall l :: l in BrandBlocks(blocks, m) ==> l.name != "" && l.logoUrl != ""
  {
    if blocks != [] {
      BrandBlocksNamed(blocks[..|blocks| - 1], m);
      FilterMapMembers(m.brandMatches(BlockHtml(blocks[|blocks| - 1])), LogoOf);
    }
  }
}
