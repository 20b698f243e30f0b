/** The taxonomy hints extractor (packages/harvest/src/extractors/taxonomy.ts):
    breadcrumbs, URL path segments, category metadata and suggested concepts. */
module Taxonomy {
  import opened Outcomes
  import opened Strings
  import opened Seqs
  import opened Json
  import opened Dom

  const BreadcrumbSelectors: seq<string> := [
    "nav[aria-label=\"breadcrumb\"] a", "nav[aria-label=\"breadcrumb\"] span",
    ".breadcrumb a", ".breadcrumb span", ".breadcrumbs a", ".breadcrumbs span",
    "[itemtype*=\"BreadcrumbList\"] [itemprop=\"name\"]", "ol.breadcrumb li", "ul.breadcrumb li"]

  const CategoryMetaSelectors: seq<string> := [
    "meta[property=\"article:section\"]", "meta[property=\"product:category\"]",
    "meta[name=\"category\"]", "meta[name=\"keywords\"]"]

  type Mapping = (string, seq<string>)

  /** `Object.entries(CONCEPT_MAPPINGS)`: each keyword with its concepts, in declaration order. */
  const ConceptMappings: seq<Mapping> := [
    ("airlink", ["airlink-routers"]),
    ("router", ["airlink-routers"]),
    ("xr", ["xr-series", "airlink-routers"]),
    ("rv", ["rv-series", "airlink-routers"]),
    ("module", ["iot-modules"]),
    ("hl", ["hl-series", "iot-modules"]),
    ("wp", ["wp-series", "iot-modules"]),
    ("gateway", ["iot-gateways"]),
    ("connectivity", ["smart-connectivity"]),
    ("esim", ["smart-connectivity"]),
    ("fleet", ["transportation"]),
    ("vehicle", ["transportation"]),
    ("transit", ["transportation"]),
    ("industrial", ["industrial-iot"]),
    ("manufacturing", ["industrial-iot"]),
    ("enterprise", ["enterprise"]),
    ("business", ["enterprise"]),
    ("safety", ["public-safety"]),
    ("first responder", ["public-safety"]),
    ("emergency", ["public-safety"]),
    ("energy", ["energy-utilities"]),
    ("utility", ["energy-utilities"]),
    ("grid", ["energy-utilities"])]

  // ---------------------------------------------------------------- breadcrumbs

  /** The text test of the breadcrumb loop, on the trimmed text. */
  predicate AcceptedCrumb(t: string) {
    t != "" && |t| < 100
  }

  /** The accepted trimmed texts of one selector's matches, in document order. */
  function CrumbTexts(els: seq<Element>): seq<string> {
    if els == [] then []
    else
      var init, t := CrumbTexts(els[..|els| - 1]), Trim(els[|els| - 1].text);
      if AcceptedCrumb(t) then init + [t] else init
  }

  /** What one breadcrumb selector yields: its accepted texts without repeats, provided
      there is at least one. */
  function CrumbPick(select: Query, sel: string): Option<seq<string>> {
    var texts := Dedup(CrumbTexts(select(sel)));
    if texts == [] then None else Some(texts)
  }

  /** The breadcrumbs of the page's own markup: those of the first selector that yields any. */
  function HtmlBreadcrumbs(select: Query): seq<string> {
    FirstPick(BreadcrumbSelectors, sel => CrumbPick(select, sel)).GetOr([])
  }

  /** `extractBreadcrumbs($)`: selector families are tried in order, and the first whose
      matches give at least one accepted text is the whole answer. */
  method ExtractBreadcrumbs(select: Query) returns (r: seq<string>)
    ensures IsFirstPick(BreadcrumbSelectors, sel => CrumbPick(select, sel), if r == [] then None else Some(r))
  {
    r := FirstCrumbFamily(select, BreadcrumbSelectors);
  }

  /** The selector loop of `extractBreadcrumbs`, over any list of selectors. */
  method FirstCrumbFamily(select: Query, sels: seq<string>) returns (r: seq<string>)
    ensures IsFirstPick(sels, sel => CrumbPick(select, sel), if r == [] then None else Some(r))
  {
    r := [];
    var i := 0;
    while i < |sels|
      invariant 0 <= i <= |sels|
      invariant forall j :: 0 <= j < i ==> CrumbPick(select, sels[j]).None?
    {
      var els := select(sels[i]);
      if |els| > 0 {
        r := CollectCrumbs(els);
        if |r| > 0 {
          assert CrumbPick(select, sels[i]) == Some(r);
          return;
        }
      }
      i := i + 1;
    }
    r := [];
  }

  /** The `els.each` loop: push each accepted text that is not listed yet. */
  method CollectCrumbs(els: seq<Element>) returns (r: seq<string>)
    ensures r == Dedup(CrumbTexts(els))
  {
    r := [];
    var j := 0;
    while j < |els|
      invariant 0 <= j <= |els|
      invariant r == Dedup(CrumbTexts(els[..j]))
    {
      assert els[..j + 1][..j] == els[..j];
      var text := Trim(els[j].text);
      DedupPush(CrumbTexts(els[..j]), text);
      if text != "" && |text| < 100 && text !in r {
        r := r + [text];
      }
      j := j + 1;
    }
    assert els[..|els|] == els;
  }

  /** Every accepted text is the trimmed text of one of the matches, and passes the test. */
  lemma {:induction false} CrumbTextsFrom(els: seq<Element>)
    ensures forall t :: t in CrumbTexts(els) ==>
      AcceptedCrumb(t) && exists k :: 0 <= k < |els| && Trim(els[k].text) == t
  {
    if els != [] {
      var init, last := els[..|els| - 1], els[|els| - 1];
      CrumbTextsFrom(init);
      assert els == init + [last];
      var extra := if AcceptedCrumb(Trim(last.text)) then [Trim(last.text)] else [];
      assert CrumbTexts(els) == CrumbTexts(init) + extra;
      forall t | t in CrumbTexts(els)
        ensures AcceptedCrumb(t) && exists k :: 0 <= k < |els| && Trim(els[k].text) == t
      {
        if t in CrumbTexts(init) {
          var k :| 0 <= k < |init| && Trim(init[k].text) == t;
          assert els[k] == init[k];
        } else {
          assert Trim(els[|els| - 1].text) == t;
        }
      }
    }
  }

  /** A family whose matches are all rejected yields nothing, so the search moves on. */
  lemma {:induction false} RejectedFamilyFallsThrough(els: seq<Element>)
    requires forall k :: 0 <= k < |els| ==> !AcceptedCrumb(Trim(els[k].text))
    ensures CrumbTexts(els) == []
  {
    if els != [] {
      RejectedFamilyFallsThrough(els[..|els| - 1]);
    }
  }

  /** The breadcrumbs of the markup are distinct, non-empty, shorter than 100 characters
      and trimmed texts of matches of a single selector family. */
  lemma HtmlBreadcrumbsProperties(select: Query)
    ensures var r := HtmlBreadcrumbs(select);
      && NoDups(r)
      && (forall i :: 0 <= i < |r| ==> AcceptedCrumb(r[i]))
      && (r != [] ==> exists s :: 0 <= s < |BreadcrumbSelectors| && Dedup(CrumbTexts(select(BreadcrumbSelectors[s]))) == r)
  {
    var pick := sel => CrumbPick(select, sel);
    var p := FirstPick(BreadcrumbSelectors, pick);
    if p.Some? {
      var s := FirstPickSource(BreadcrumbSelectors, pick);
      var texts := CrumbTexts(select(BreadcrumbSelectors[s]));
      DedupSpec(texts);
      CrumbTextsFrom(select(BreadcrumbSelectors[s]));
      assert p.value == Dedup(texts);
    }
  }

  // ---------------------------------------------------------------- meta categories

  predicate AcceptedCategory(c: string) {
    0 < |c| < 50
  }

  /** `parts.map(c => c.trim()).filter(c => c.length > 0 && c.length < 50)`. */
  function CategoryParts(parts: seq<string>): seq<string> {
    if parts == [] then []
    else
      var init, c := CategoryParts(parts[..|parts| - 1]), Trim(parts[|parts| - 1]);
      if AcceptedCategory(c) then init + [c] else init
  }

  /** The categories one `content` attribute contributes: none when it is missing or empty. */
  function ContentCategories(content: string): seq<string> {
    if content == "" then [] else CategoryParts(Split(content, ','))
  }

  /** The `categories` array after the loop over `sels`. */
  function RawMetaCategories(select: Query, sels: seq<string>): seq<string> {
    if sels == [] then []
    else
      RawMetaCategories(select, sels[..|sels| - 1])
        + ContentCategories(FirstAttr(select, sels[|sels| - 1], "content"))
  }

  /** `extractMetaCategories($)`. */
  method ExtractMetaCategories(select: Query) returns (r: seq<string>)
    ensures r == Take(Dedup(RawMetaCategories(select, CategoryMetaSelectors)), 10)
  {
    var categories: seq<string> := [];
    var i := 0;
    while i < |CategoryMetaSelectors|
      invariant 0 <= i <= |CategoryMetaSelectors|
      invariant categories == RawMetaCategories(select, CategoryMetaSelectors[..i])
    {
      assert CategoryMetaSelectors[..i + 1][..i] == CategoryMetaSelectors[..i];
      var content := FirstAttr(select, CategoryMetaSelectors[i], "content");
      if content != "" {
        var parts := CategoryParts(Split(content, ','));
        categories := categories + parts;
      }
      i := i + 1;
    }
    assert CategoryMetaSelectors[..|CategoryMetaSelectors|] == CategoryMetaSelectors;
    r := Take(Dedup(categories), 10);
  }

  lemma {:induction false} CategoryPartsAccepted(parts: seq<string>)
    ensures forall c :: c in CategoryParts(parts) ==> AcceptedCategory(c)
  {
    if parts != [] {
      CategoryPartsAccepted(parts[..|parts| - 1]);
    }
  }

  lemma {:induction false} RawMetaCategoriesAccepted(select: Query, sels: seq<string>)
    ensures forall c :: c in RawMetaCategories(select, sels) ==> AcceptedCategory(c)
  {
    if sels != [] {
      RawMetaCategoriesAccepted(select, sels[..|sels| - 1]);
      var content := FirstAttr(select, sels[|sels| - 1], "content");
      if content != "" {
        CategoryPartsAccepted(Split(content, ','));
      }
    }
  }

  /** At most ten distinct categories from the metadata, each 1 to 49 characters long. */
  lemma MetaCategoriesProperties(select: Query)
    ensures var r := Take(Dedup(RawMetaCategories(select, CategoryMetaSelectors)), 10);
      && |r| <= 10 && NoDups(r)
      && forall i :: 0 <= i < |r| ==> AcceptedCategory(r[i])
  {
    var raw := RawMetaCategories(select, CategoryMetaSelectors);
    DedupSpec(raw);
    TakeNoDups(Dedup(raw), 10);
    RawMetaCategoriesAccepted(select, CategoryMetaSelectors);
  }

  // ---------------------------------------------------------------- JSON-LD

  /** `cats.filter(c => typeof c === 'string')`. */
  function StringsOf(items: seq<Json>): seq<string> {
    if items == [] then []
    else
      var init, last := StringsOf(items[..|items| - 1]), items[|items| - 1];
      if last.JString? then init + [last.s] else init
  }

  /** The categories of one JSON-LD block: those of a `Product` with a truthy `category`,
      taken as the array's strings, or as the single value when it is a string. */
  function ProductCategories(j: Json): seq<string> {
    var block := Some(j);
    if Get(block, "@type") == Some(JString("Product")) && Truthy(Get(block, "category")) then
      var c := Get(block, "category").value;
      if c.JArray? then StringsOf(c.items) else StringsOf([c])
    else []
  }

  /** `item.name`, when it is a non-empty string. */
  function ItemName(item: Json): seq<string> {
    match Get(Some(item), "name")
    case Some(JString(s)) => if s != "" then [s] else []
    case _ => []
  }

  /** The names pushed by the loop over `itemListElement`. Reading `name` of a `null`
      item throws, which ends the block; the names pushed before it stay. */
  function ItemNames(items: seq<Json>): seq<string> {
    if items == [] then []
    else if items[0] == JNull then []
    else ItemName(items[0]) + ItemNames(items[1..])
  }

  /** The breadcrumbs of one JSON-LD block: the item names of a `BreadcrumbList` with a
      truthy `itemListElement`. A string there iterates its characters, which have no
      name; any other non-array is not iterable, and the error is swallowed. */
  function ListCrumbs(j: Json): seq<string> {
    var block := Some(j);
    if Get(block, "@type") == Some(JString("BreadcrumbList")) && Truthy(Get(block, "itemListElement")) then
      match Get(block, "itemListElement").value
      case JArray(items) => ItemNames(items)
      case _ => []
    else []
  }

  /** The categories of all blocks in document order; a block that fails to parse adds nothing. */
  function SchemaCategories(blocks: seq<Option<Json>>): seq<string> {
    if blocks == [] then []
    else
      SchemaCategories(blocks[..|blocks| - 1])
        + match blocks[|blocks| - 1] { case Some(j) => ProductCategories(j) case None => [] }
  }

  function SchemaCrumbs(blocks: seq<Option<Json>>): seq<string> {
    if blocks == [] then []
    else
      SchemaCrumbs(blocks[..|blocks| - 1])
        + match blocks[|blocks| - 1] { case Some(j) => ListCrumbs(j) case None => [] }
  }

  /** One more block appends what it contributes. */
  lemma SchemaStep(blocks: seq<Option<Json>>, i: nat)
    requires i < |blocks|
    ensures SchemaCategories(blocks[..i + 1])
      == SchemaCategories(blocks[..i]) + (if blocks[i].Some? then ProductCategories(blocks[i].value) else [])
    ensures SchemaCrumbs(blocks[..i + 1])
      == SchemaCrumbs(blocks[..i]) + (if blocks[i].Some? then ListCrumbs(blocks[i].value) else [])
  {
    assert blocks[..i + 1][..i] == blocks[..i];
  }

  datatype SchemaHints = SchemaHints(categories: seq<string>, breadcrumbs: seq<string>)

  /** `extractSchemaOrg($)` over the parse results of the `application/ld+json` scripts
      (`None` for a block whose text is not valid JSON). */
  method ExtractSchemaOrg(blocks: seq<Option<Json>>) returns (h: SchemaHints)
    ensures h.categories == SchemaCategories(blocks)
    ensures h.breadcrumbs == SchemaCrumbs(blocks)
  {
    var categories: seq<string> := [];
    var breadcrumbs: seq<string> := [];
    var i := 0;
    while i < |blocks|
      invariant 0 <= i <= |blocks|
      invariant categories == SchemaCategories(blocks[..i])
      invariant breadcrumbs == SchemaCrumbs(blocks[..i])
    {
      SchemaStep(blocks, i);
      if blocks[i].Some? {
        var cats, names := SchemaBlock(blocks[i].value);
        categories := categories + cats;
        breadcrumbs := breadcrumbs + names;
      }
      i := i + 1;
    }
    assert blocks[..|blocks|] == blocks;
    h := SchemaHints(categories, breadcrumbs);
  }

  /** The body of the `try` for one parsed block. */
  method SchemaBlock(json: Json) returns (cats: seq<string>, names: seq<string>)
    ensures cats == ProductCategories(json) && names == ListCrumbs(json)
  {
    cats := ProductCategories(json);
    names := [];
    var block := Some(json);
    if Get(block, "@type") == Some(JString("BreadcrumbList")) && Truthy(Get(block, "itemListElement")) {
      var list := Get(block, "itemListElement").value;
      if list.JArray? {
        names := ListNames(list.items);
      }
    }
  }

  /** The `for (const item of json.itemListElement)` loop. */
  method ListNames(items: seq<Json>) returns (names: seq<string>)
    ensures names == ItemNames(items)
  {
    names := [];
    var j := 0;
    while j < |items|
      invariant 0 <= j <= |items|
      invariant names + ItemNames(items[j..]) == ItemNames(items)
    {
      if items[j] == JNull {
        return;
      }
      assert items[j..][1..] == items[j + 1..];
      assert names + ItemNames(items[j..]) == (names + ItemName(items[j])) + ItemNames(items[j + 1..]);
      names := names + ItemName(items[j]);
      j := j + 1;
    }
  }

  /** A `null` item ends the list: nothing after it is read. */
  lemma {:induction false} ItemNamesStopAtNull(pre: seq<Json>, post: seq<Json>)
    requires forall k :: 0 <= k < |pre| ==> pre[k] != JNull
    ensures ItemNames(pre + [JNull] + post) == ItemNames(pre)
  {
    if pre == [] {
      assert (pre + [JNull] + post)[0] == JNull;
    } else {
      assert (pre + [JNull] + post)[1..] == pre[1..] + [JNull] + post;
      ItemNamesStopAtNull(pre[1..], post);
    }
  }

  /** Each item name is a non-empty string `name` of an object in the list. */
  lemma {:induction false} ItemNamesFrom(items: seq<Json>)
    ensures forall n :: n in ItemNames(items) ==>
      n != "" && exists k :: 0 <= k < |items| && Get(Some(items[k]), "name") == Some(JString(n))
  {
    if items != [] && items[0] != JNull {
      ItemNamesFrom(items[1..]);
      forall n | n in ItemNames(items)
        ensures n != "" && exists k :: 0 <= k < |items| && Get(Some(items[k]), "name") == Some(JString(n))
      {
        if n in ItemNames(items[1..]) {
          var k :| 0 <= k < |items[1..]| && Get(Some(items[1..][k]), "name") == Some(JString(n));
          assert items[k + 1] == items[1..][k];
        } else {
          assert n in ItemName(items[0]);
        }
      }
    }
  }

  /** A category list keeps exactly its strings, empty ones included. */
  lemma {:induction false} StringsOfMembers(items: seq<Json>)
    ensures forall s :: s in StringsOf(items) <==> JString(s) in items
  {
    if items != [] {
      var init := items[..|items| - 1];
      StringsOfMembers(init);
      assert items == init + [items[|items| - 1]];
    }
  }

  // ---------------------------------------------------------------- concepts

  /** The concepts a lower-cased hint maps to, keyword by keyword, repeats included. */
  function HintConcepts(hint: string, mappings: seq<Mapping>): seq<string> {
    if mappings == [] then []
    else
      var m := mappings[|mappings| - 1];
      HintConcepts(hint, mappings[..|mappings| - 1]) + (if Contains(hint, m.0) then m.1 else [])
  }

  /** One more keyword appends its concepts when the hint contains it. */
  lemma HintConceptsStep(acc: seq<string>, hint: string, mappings: seq<Mapping>, j: nat)
    requires j < |mappings|
    ensures acc + HintConcepts(hint, mappings[..j + 1])
      == (acc + HintConcepts(hint, mappings[..j])) + (if Contains(hint, mappings[j].0) then mappings[j].1 else [])
  {
    assert mappings[..j + 1][..j] == mappings[..j];
  }

  /** The concepts of every hint, lower-cased, in order. */
  function AllConcepts(hints: seq<string>, mappings: seq<Mapping>): seq<string> {
    if hints == [] then []
    else AllConcepts(hints[..|hints| - 1], mappings) + HintConcepts(ToLower(hints[|hints| - 1]), mappings)
  }

  /** `suggestConcepts(hints)`: the concepts in the order they are first added to the Set. */
  method SuggestConcepts(hints: seq<string>) returns (r: seq<string>)
    ensures r == Dedup(AllConcepts(hints, ConceptMappings))
  {
    r := [];
    ghost var acc: seq<string> := [];
    var i := 0;
    while i < |hints|
      invariant 0 <= i <= |hints|
      invariant acc == AllConcepts(hints[..i], ConceptMappings)
      invariant r == Dedup(acc)
    {
      assert hints[..i + 1][..i] == hints[..i];
      var hint := ToLower(hints[i]);
      r := AddHintConcepts(r, acc, hint, ConceptMappings);
      acc := acc + HintConcepts(hint, ConceptMappings);
      i := i + 1;
    }
    assert hints[..|hints|] == hints;
  }

  /** The loops over the keywords and their concepts, for one hint. */
  method AddHintConcepts(concepts: seq<string>, ghost acc: seq<string>, hint: string, mappings: seq<Mapping>)
    returns (r: seq<string>)
    requires concepts == Dedup(acc)
    ensures r == Dedup(acc + HintConcepts(hint, mappings))
  {
    r := concepts;
    ghost var cur := acc;
    var j := 0;
    while j < |mappings|
      invariant 0 <= j <= |mappings|
      invariant cur == acc + HintConcepts(hint, mappings[..j])
      invariant r == Dedup(cur)
    {
      HintConceptsStep(acc, hint, mappings, j);
      if Contains(hint, mappings[j].0) {
        r := AddConcepts(r, cur, mappings[j].1);
        cur := cur + mappings[j].1;
      }
      j := j + 1;
    }
    assert mappings[..|mappings|] == mappings;
  }

  /** `for (const c of mapped) concepts.add(c)`. */
  method AddConcepts(concepts: seq<string>, ghost acc: seq<string>, mapped: seq<string>)
    returns (r: seq<string>)
    requires concepts == Dedup(acc)
    ensures r == Dedup(acc + mapped)
  {
    r := concepts;
    assert acc + mapped[..0] == acc;
    var k := 0;
    while k < |mapped|
      invariant 0 <= k <= |mapped|
      invariant r == Dedup(acc + mapped[..k])
    {
      assert acc + mapped[..k + 1] == (acc + mapped[..k]) + [mapped[k]];
      DedupPush(acc + mapped[..k], mapped[k]);
      if mapped[k] !in r {
        r := r + [mapped[k]];
      }
      k := k + 1;
    }
    assert mapped[..|mapped|] == mapped;
  }

  /** A concept is mapped from one hint exactly when one of its keywords occurs in it. */
  lemma {:induction false} HintConceptsMembers(hint: string, mappings: seq<Mapping>, c: string)
    ensures c in HintConcepts(hint, mappings) <==>
      exists j :: 0 <= j < |mappings| && Contains(hint, mappings[j].0) && c in mappings[j].1
  {
    if mappings != [] {
      var init := mappings[..|mappings| - 1];
      HintConceptsMembers(hint, init, c);
      if exists j :: 0 <= j < |init| && Contains(hint, init[j].0) && c in init[j].1 {
        var j :| 0 <= j < |init| && Contains(hint, init[j].0) && c in init[j].1;
        assert mappings[j] == init[j];
      }
      if exists j :: 0 <= j < |mappings| && Contains(hint, mappings[j].0) && c in mappings[j].1 {
        var j :| 0 <= j < |mappings| && Contains(hint, mappings[j].0) && c in mappings[j].1;
        if j < |init| {
          assert mappings[j] == init[j];
        }
      }
    }
  }

  /** The lower-cased `hint` contains a keyword that maps to `c`. */
  predicate SuggestedBy(hint: string, mappings: seq<Mapping>, c: string) {
    c in HintConcepts(ToLower(hint), mappings)
  }

  /** A concept is suggested exactly when some lower-cased hint contains one of its keywords. */
  lemma AllConceptsMembers(hints: seq<string>, mappings: seq<Mapping>, c: string)
    ensures c in AllConcepts(hints, mappings) <==> exists i :: 0 <= i < |hints| && SuggestedBy(hints[i], mappings, c)
  {
    if c in AllConcepts(hints, mappings) {
      var i := AllConceptsWitness(hints, mappings, c);
    }
    forall i | 0 <= i < |hints| && SuggestedBy(hints[i], mappings, c) ensures c in AllConcepts(hints, mappings) {
      AllConceptsHas(hints, mappings, c, i);
    }
  }

  /** A suggested concept comes from some hint. */
  lemma {:induction false} AllConceptsWitness(hints: seq<string>, mappings: seq<Mapping>, c: string) returns (i: nat)
    requires c in AllConcepts(hints, mappings)
    ensures i < |hints| && SuggestedBy(hints[i], mappings, c)
  {
    var init := hints[..|hints| - 1];
    if c in AllConcepts(init, mappings) {
      i := AllConceptsWitness(init, mappings, c);
      assert hints[i] == init[i];
    } else {
      i := |hints| - 1;
    }
  }

  /** Every concept of every hint is suggested. */
  lemma {:induction false} AllConceptsHas(hints: seq<string>, mappings: seq<Mapping>, c: string, i: nat)
    requires i < |hints| && SuggestedBy(hints[i], mappings, c)
    ensures c in AllConcepts(hints, mappings)
  {
    var init := hints[..|hints| - 1];
    if i < |init| {
      AllConceptsHas(init, mappings, c, i);
      assert hints[i] == init[i];
    }
  }

  /** The suggestions are distinct, and a concept is suggested if and only if some hint,
      lower-cased, contains a keyword that maps to it. */
  lemma SuggestedConceptsCharacterised(hints: seq<string>, mappings: seq<Mapping>, c: string)
    ensures NoDups(Dedup(AllConcepts(hints, mappings)))
    ensures c in Dedup(AllConcepts(hints, mappings)) <==>
      exists i, j :: 0 <= i < |hints| && 0 <= j < |mappings|
        && Contains(ToLower(hints[i]), mappings[j].0) && c in mappings[j].1
  {
    var all := AllConcepts(hints, mappings);
    DedupSpec(all);
    assert c in Dedup(all) <==> c in all;
    AllConceptsMembers(hints, mappings, c);
    forall i | 0 <= i < |hints| {
      HintConceptsMembers(ToLower(hints[i]), mappings, c);
    }
  }

  // ---------------------------------------------------------------- assembly

  datatype TaxonomyHints = TaxonomyHints(
    breadcrumbs: seq<string>, urlPath: seq<string>,
    metaCategories: seq<string>, suggestedConcepts: seq<string>)

  /** `pathname.split('/').filter(Boolean)`. */
  function UrlPath(pathname: string): seq<string> {
    NonEmpty(Split(pathname, '/'))
  }

  /** `extractTaxonomy(html, $, url)`, given the URL's parsed pathname. */
  method ExtractTaxonomy(pathname: string, select: Query, blocks: seq<Option<Json>>) returns (t: TaxonomyHints)
    ensures t.urlPath == UrlPath(pathname)
    // schema.org crumbs are appended when new, after the ones found in the markup
    ensures t.breadcrumbs == Dedup(HtmlBreadcrumbs(select) + SchemaCrumbs(blocks))
    ensures var cats := Take(Dedup(RawMetaCategories(select, CategoryMetaSelectors)), 10)
        + SchemaCategories(blocks);
      && t.metaCategories == Take(Dedup(cats), 10)
      && t.suggestedConcepts == Dedup(AllConcepts(
           t.breadcrumbs + t.urlPath + cats
             + [Trim(FirstText(select, "h1")), Trim(AllText(select, "title"))],
           ConceptMappings))
  {
    var urlPath := NonEmpty(Split(pathname, '/'));
    var breadcrumbs := ExtractBreadcrumbs(select);
    ghost var pick := sel => CrumbPick(select, sel);
    FirstPickIsTheFirstPick(BreadcrumbSelectors, pick, if breadcrumbs == [] then None else Some(breadcrumbs));
    assert breadcrumbs == HtmlBreadcrumbs(select);
    HtmlBreadcrumbsProperties(select);
    var metaCategories := ExtractMetaCategories(select);
    var schema := ExtractSchemaOrg(blocks);
    metaCategories := metaCategories + schema.categories;
    breadcrumbs := MergeCrumbs(breadcrumbs, schema.breadcrumbs);
    var title := Trim(AllText(select, "title"));
    var h1 := Trim(FirstText(select, "h1"));
    var allHints := breadcrumbs + urlPath + metaCategories + [h1, title];
    var concepts := SuggestConcepts(allHints);
    t := TaxonomyHints(breadcrumbs, urlPath, Take(Dedup(metaCategories), 10), concepts);
  }

  /** `for (const b of schema.breadcrumbs) if (!breadcrumbs.includes(b)) breadcrumbs.push(b)`. */
  method MergeCrumbs(crumbs: seq<string>, extra: seq<string>) returns (r: seq<string>)
    requires NoDups(crumbs)
    ensures r == Dedup(crumbs + extra)
  {
    DedupOfNoDups(crumbs);
    assert crumbs + extra[..0] == crumbs;
    r := crumbs;
    var i := 0;
    while i < |extra|
      invariant 0 <= i <= |extra|
      invariant r == Dedup(crumbs + extra[..i])
    {
      assert crumbs + extra[..i + 1] == (crumbs + extra[..i]) + [extra[i]];
      DedupPush(crumbs + extra[..i], extra[i]);
      if extra[i] !in r {
        r := r + [extra[i]];
      }
      i := i + 1;
    }
    assert extra[..|extra|] == extra;
  }

  /** The final breadcrumbs: the markup's come first and unchanged, then the new
      schema.org names; none repeats and none is empty. */
  lemma BreadcrumbsProperties(select: Query, blocks: seq<Option<Json>>)
    ensures var html := HtmlBreadcrumbs(select);
      var r := Dedup(html + SchemaCrumbs(blocks));
      && html <= r && NoDups(r)
      && (forall i :: 0 <= i < |r| ==> r[i] != "")
      && (forall i :: 0 <= i < |SchemaCrumbs(blocks)| ==> SchemaCrumbs(blocks)[i] in r)
  {
    var html := HtmlBreadcrumbs(select);
    var extra := SchemaCrumbs(blocks);
    HtmlBreadcrumbsProperties(select);
    DedupMerge(html, extra);
    SchemaCrumbsNonEmpty(blocks);
    forall i | 0 <= i < |Dedup(html + extra)| ensures Dedup(html + extra)[i] != "" {
      var x := Dedup(html + extra)[i];
      assert x in html + extra;
    }
  }

  lemma {:induction false} SchemaCrumbsNonEmpty(blocks: seq<Option<Json>>)
    ensures forall n :: n in SchemaCrumbs(blocks) ==> n != ""
  {
    if blocks != [] {
      SchemaCrumbsNonEmpty(blocks[..|blocks| - 1]);
      match blocks[|blocks| - 1]
      case Some(j) =>
        var block := Some(j);
        if Get(block, "@type") == Some(JString("BreadcrumbList")) && Truthy(Get(block, "itemListElement")) {
          if Get(block, "itemListElement").value.JArray? {
            ItemNamesFrom(Get(block, "itemListElement").value.items);
          }
        }
      case None =>
    }
  }
}
