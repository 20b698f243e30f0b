/** Brand identity extraction (packages/harvest/src/extractors/branding.ts): logo,
    favicon, hero image, colour palette, fonts and product images. The `<style>` text
    is tokenised by regular expressions that are not modelled: the colour tokens and
    font-family captures arrive as lists in document order. */
module Branding {
  import opened Outcomes
  import opened Strings
  import opened Seqs
  import opened Dom
  import opened Helpers
  import opened Assets

  // ---------------------------------------------------------------- colours

  const IgnoredColors: set<string> := {"#fff", "#ffffff", "#000", "#000000", "#333", "#333333"}

  /** The `counts` record after the counting loop: how often each token occurs. */
  function CountMap(tokens: seq<string>): (m: map<string, nat>)
    ensures forall k :: k in m <==> k in tokens
    ensures forall k :: k in m ==> m[k] == multiset(tokens)[k]
  {
    map k | k in tokens :: multiset(tokens)[k]
  }

  /** One more token: its count goes up by one, or it enters with count one. */
  lemma CountMapSnoc(xs: seq<string>, c: string)
    ensures var before := CountMap(xs);
      CountMap(xs + [c]) == if c in before then before[c := before[c] + 1] else before[c := 1]
  {
    var m := CountMap(xs + [c]);
    var n := if c in xs then CountMap(xs)[c := multiset(xs)[c] + 1] else CountMap(xs)[c := 1];
    assert multiset(xs + [c]) == multiset(xs) + multiset{c};
    forall k ensures k in m <==> k in n {
      assert k in xs + [c] <==> k in xs || k == c;
    }
    forall k | k in m ensures m[k] == n[k] {
    }
  }

  ghost predicate AllIn(s: seq<string>, counts: map<string, nat>) {
    forall i :: 0 <= i < |s| ==> s[i] in counts
  }

  ghost predicate Descending(s: seq<string>, counts: map<string, nat>)
    requires AllIn(s, counts)
  {
    forall i, j :: 0 <= i < j < |s| ==> counts[s[i]] >= counts[s[j]]
  }

  /** Stable insertion of `k` behind every key counted at least as often. */
  function InsertByCount(sorted: seq<string>, k: string, counts: map<string, nat>): (r: seq<string>)
    requires k in counts && AllIn(sorted, counts)
    ensures multiset(r) == multiset(sorted) + multiset{k}
    ensures AllIn(r, counts)
    decreases |sorted|
  {
    if sorted == [] || counts[sorted[|sorted| - 1]] >= counts[k] then sorted + [k]
    else
      var init, last := sorted[..|sorted| - 1], sorted[|sorted| - 1];
      assert sorted == init + [last];
      InsertByCount(init, k, counts) + [last]
  }

  /** `Object.entries(counts).sort((a, b) => b[1] - a[1])`: a stable sort of the keys,
      in insertion order, by descending count. */
  function SortByCount(keys: seq<string>, counts: map<string, nat>): (r: seq<string>)
    requires AllIn(keys, counts)
    ensures multiset(r) == multiset(keys)
    ensures AllIn(r, counts)
  {
    if keys == [] then []
    else
      var init := keys[..|keys| - 1];
      assert keys == init + [keys[|keys| - 1]];
      InsertByCount(SortByCount(init, counts), keys[|keys| - 1], counts)
  }

  /** `a` is ranked before `b`: counted more often, or as often and seen first. */
  ghost predicate RankedBefore(keys: seq<string>, counts: map<string, nat>, a: string, b: string)
    requires a in keys && b in keys && a in counts && b in counts
  {
    counts[a] > counts[b] || (counts[a] == counts[b] && FirstIndex(keys, a) < FirstIndex(keys, b))
  }

  ghost predicate RankOrdered(r: seq<string>, keys: seq<string>, counts: map<string, nat>) {
    && (forall i :: 0 <= i < |r| ==> r[i] in keys && r[i] in counts)
    && (forall i, j :: 0 <= i < j < |r| ==> RankedBefore(keys, counts, r[i], r[j]))
  }

  /** Where `k` lands: behind every key counted at least as often, ahead of the rest. */
  lemma {:induction false} InsertSplits(sorted: seq<string>, k: string, counts: map<string, nat>) returns (p: nat)
    requires k in counts && AllIn(sorted, counts) && Descending(sorted, counts)
    ensures p <= |sorted| && InsertByCount(sorted, k, counts) == sorted[..p] + [k] + sorted[p..]
    ensures forall i :: 0 <= i < p ==> counts[sorted[i]] >= counts[k]
    ensures forall i :: p <= i < |sorted| ==> counts[sorted[i]] < counts[k]
    decreases |sorted|
  {
    if sorted == [] {
      p := 0;
    } else if counts[sorted[|sorted| - 1]] >= counts[k] {
      p := |sorted|;
      assert sorted[..p] == sorted && sorted[p..] == [];
      forall i | 0 <= i < p ensures counts[sorted[i]] >= counts[k] {
        if i < p - 1 {
          assert counts[sorted[i]] >= counts[sorted[p - 1]];
        }
      }
    } else {
      var init, last := sorted[..|sorted| - 1], sorted[|sorted| - 1];
      assert sorted == init + [last];
      DescendingInit(init, last, counts);
      p := InsertSplits(init, k, counts);
      InsertSplitsStep(init, last, k, counts, p);
      forall i | 0 <= i < p ensures counts[sorted[i]] >= counts[k] {
        assert sorted[i] == init[i];
      }
      forall i | p <= i < |sorted| ensures counts[sorted[i]] < counts[k] {
        if i < |init| {
          assert sorted[i] == init[i];
        }
      }
    }
  }

  lemma DescendingInit(init: seq<string>, last: string, counts: map<string, nat>)
    requires AllIn(init + [last], counts) && Descending(init + [last], counts)
    ensures AllIn(init, counts) && Descending(init, counts)
  {
    assert forall i :: 0 <= i < |init| ==> init[i] == (init + [last])[i];
  }

  /** The recursive case of `InsertSplits`: `last` is counted less often than `k`, so
      the split point found in `init` serves for `init + [last]`. */
  lemma InsertSplitsStep(init: seq<string>, last: string, k: string, counts: map<string, nat>, p: nat)
    requires k in counts && last in counts && counts[last] < counts[k]
    requires AllIn(init, counts) && AllIn(init + [last], counts)
    requires p <= |init| && InsertByCount(init, k, counts) == init[..p] + [k] + init[p..]
    ensures InsertByCount(init + [last], k, counts) == (init + [last])[..p] + [k] + (init + [last])[p..]
  {
    var sorted := init + [last];
    assert sorted[..|sorted| - 1] == init;
    var r0 := InsertByCount(init, k, counts);
    assert InsertByCount(sorted, k, counts) == r0 + [last];
    SliceSnoc(init, last, p);
    assert (init[..p] + [k] + init[p..]) + [last] == init[..p] + [k] + (init[p..] + [last]);
  }

  /** Inserting `k` between the keys ranked before it and those ranked after it keeps
      a rank-ordered sequence rank-ordered. */
  lemma InsertKeepsOrder(s: seq<string>, p: nat, k: string, keys: seq<string>, counts: map<string, nat>)
    requires p <= |s| && RankOrdered(s, keys, counts) && k in keys && k in counts
    requires forall i :: 0 <= i < p ==> RankedBefore(keys, counts, s[i], k)
    requires forall i :: p <= i < |s| ==> RankedBefore(keys, counts, k, s[i])
    ensures RankOrdered(s[..p] + [k] + s[p..], keys, counts)
  {
    var r := s[..p] + [k] + s[p..];
    assert forall i :: 0 <= i < |r| ==> r[i] == (if i < p then s[i] else if i == p then k else s[i - 1]);
  }

  /** Rank order with respect to a key list is unchanged by appending a new key. */
  lemma RankOrderExtends(r: seq<string>, init: seq<string>, k: string, counts: map<string, nat>)
    requires RankOrdered(r, init, counts)
    ensures RankOrdered(r, init + [k], counts)
  {
    forall x | x in init ensures FirstIndex(init + [k], x) == FirstIndex(init, x) {
      FirstIndexPrefix(init, [k], x);
    }
  }

  /** The sort is stable: ties keep key order, so the result is ordered by descending
      count and then by position in `keys`. */
  lemma {:induction false} SortByCountRankOrdered(keys: seq<string>, counts: map<string, nat>)
    requires AllIn(keys, counts) && NoDups(keys)
    ensures RankOrdered(SortByCount(keys, counts), keys, counts)
  {
    if keys != [] {
      var init, k := keys[..|keys| - 1], keys[|keys| - 1];
      assert keys == init + [k];
      SortByCountRankOrdered(init, counts);
      assert k !in init;
      InsertLastRanked(SortByCount(init, counts), init, k, counts);
    }
  }

  /** Inserting the last key into the sorted earlier keys keeps the rank order, now
      measured against all the keys. */
  lemma InsertLastRanked(s: seq<string>, init: seq<string>, k: string, counts: map<string, nat>)
    requires k in counts && AllIn(s, counts) && RankOrdered(s, init, counts) && k !in init
    ensures RankOrdered(InsertByCount(s, k, counts), init + [k], counts)
  {
    var keys := init + [k];
    assert Descending(s, counts);
    var p := InsertSplits(s, k, counts);
    RankOrderExtends(s, init, k, counts);
    FirstIndexUnique(keys, k, |init|);
    forall i | 0 <= i < |s| ensures FirstIndex(keys, s[i]) < |init| {
      FirstIndexPrefix(init, [k], s[i]);
    }
    InsertKeepsOrder(s, p, k, keys, counts);
  }

  function WithoutIgnored(colors: seq<string>): (r: seq<string>)
    ensures forall i :: 0 <= i < |r| ==> r[i] in colors && ToLower(r[i]) !in IgnoredColors
    ensures forall i :: 0 <= i < |colors| && ToLower(colors[i]) !in IgnoredColors ==> colors[i] in r
  {
    if colors == [] then []
    else (if ToLower(colors[0]) in IgnoredColors then [] else [colors[0]]) + WithoutIgnored(colors[1..])
  }

  lemma {:induction false} WithoutIgnoredKeepsOrder(colors: seq<string>, keys: seq<string>, counts: map<string, nat>)
    requires RankOrdered(colors, keys, counts)
    ensures RankOrdered(WithoutIgnored(colors), keys, counts)
  {
    if colors != [] {
      assert RankOrdered(colors[1..], keys, counts);
      WithoutIgnoredKeepsOrder(colors[1..], keys, counts);
      var rest := WithoutIgnored(colors[1..]);
      forall i | 0 <= i < |rest| ensures RankedBefore(keys, counts, colors[0], rest[i]) {
        var j :| 1 <= j < |colors| && colors[j] == rest[i];
      }
    }
  }

  lemma {:induction false} WithoutIgnoredNoDups(colors: seq<string>)
    requires NoDups(colors)
    ensures NoDups(WithoutIgnored(colors))
  {
    if colors != [] {
      WithoutIgnoredNoDups(colors[1..]);
      assert colors[0] !in colors[1..];
    }
  }

  /** The ranked palette: distinct colours by descending count, ignored colours removed. */
  function RankedColors(tokens: seq<string>): seq<string> {
    DedupSpec(tokens);
    WithoutIgnored(SortByCount(Dedup(tokens), CountMap(tokens)))
  }

  /** Every ranked colour occurs in the style text, is not an ignored colour and is
      ranked once; every other colour of the style text is ranked. */
  lemma RankedColorsMembers(tokens: seq<string>)
    ensures var r := RankedColors(tokens);
      && NoDups(r)
      && (forall i :: 0 <= i < |r| ==> r[i] in tokens && ToLower(r[i]) !in IgnoredColors)
      && (forall i :: 0 <= i < |tokens| && ToLower(tokens[i]) !in IgnoredColors ==> tokens[i] in r)
  {
    var keys, counts := Dedup(tokens), CountMap(tokens);
    DedupSpec(tokens);
    var sorted := SortByCount(keys, counts);
    var r := WithoutIgnored(sorted);
    assert NoDups(sorted) by {
      SortByCountRankOrdered(keys, counts);
      forall i, j | 0 <= i < j < |sorted| ensures sorted[i] != sorted[j] {
        assert RankedBefore(keys, counts, sorted[i], sorted[j]);
      }
    }
    WithoutIgnoredNoDups(sorted);
    forall i | 0 <= i < |tokens| && ToLower(tokens[i]) !in IgnoredColors ensures tokens[i] in r {
      assert tokens[i] in keys;
      assert tokens[i] in multiset(sorted);
    }
    forall i | 0 <= i < |r| ensures r[i] in tokens {
      assert r[i] in multiset(sorted);
      assert r[i] in keys;
    }
  }

  /** More frequent colours come first; colours as frequent keep first-seen order. */
  lemma RankedColorsOrdered(tokens: seq<string>)
    ensures var r := RankedColors(tokens);
      forall i, j :: 0 <= i < j < |r| ==>
        r[i] in tokens && r[j] in tokens &&
        (|| multiset(tokens)[r[i]] > multiset(tokens)[r[j]]
         || (multiset(tokens)[r[i]] == multiset(tokens)[r[j]]
             && FirstIndex(tokens, r[i]) < FirstIndex(tokens, r[j])))
  {
    var keys, counts := Dedup(tokens), CountMap(tokens);
    DedupSpec(tokens);
    var sorted := SortByCount(keys, counts);
    var r := WithoutIgnored(sorted);
    SortByCountRankOrdered(keys, counts);
    WithoutIgnoredKeepsOrder(sorted, keys, counts);
    forall i, j | 0 <= i < j < |r|
      ensures r[i] in tokens && r[j] in tokens &&
        (|| multiset(tokens)[r[i]] > multiset(tokens)[r[j]]
         || (multiset(tokens)[r[i]] == multiset(tokens)[r[j]]
             && FirstIndex(tokens, r[i]) < FirstIndex(tokens, r[j])))
    {
      RankedBeforeInTokens(tokens, r[i], r[j]);
    }
  }

  /** Ranking against the distinct tokens and their counts is ranking by count in the
      style text, ties broken by first appearance there. */
  lemma RankedBeforeInTokens(tokens: seq<string>, x: string, y: string)
    requires x in Dedup(tokens) && y in Dedup(tokens) && x in CountMap(tokens) && y in CountMap(tokens)
    requires RankedBefore(Dedup(tokens), CountMap(tokens), x, y)
    ensures x in tokens && y in tokens
    ensures || multiset(tokens)[x] > multiset(tokens)[y]
            || (multiset(tokens)[x] == multiset(tokens)[y] && FirstIndex(tokens, x) < FirstIndex(tokens, y))
  {
    var keys := Dedup(tokens);
    DedupFirstAppearanceOrder(tokens);
    var a, b := FirstIndex(keys, x), FirstIndex(keys, y);
    assert keys[a] == x && keys[b] == y;
  }

  datatype Palette = Palette(primary: Option<string>, secondary: Option<string>, accent: Option<string>)

  function Pick(ranked: seq<string>, n: nat): Option<string> {
    if n < |ranked| && ranked[n] != "" then Some(ranked[n]) else None
  }

  /** `extractColors($)`: `themeColor` is the `content` of the `theme-color` meta tag
      ("" when absent) and `tokens` the colour literals of the `<style>` text. */
  method ExtractColors(themeColor: string, tokens: seq<string>) returns (p: Palette)
    ensures themeColor != "" ==> p.primary == Some(themeColor)
    ensures themeColor == "" ==> p.primary == Pick(RankedColors(tokens), 0)
    ensures p.secondary == Pick(RankedColors(tokens), 1)
    ensures p.accent == Pick(RankedColors(tokens), 2)
  {
    var primary: Option<string> := None;
    if themeColor != "" {
      primary := Some(themeColor);
    }
    var counts: map<string, nat> := map[];
    var keys: seq<string> := [];
    var i := 0;
    while i < |tokens|
      invariant 0 <= i <= |tokens|
      invariant keys == Dedup(tokens[..i])
      invariant counts == CountMap(tokens[..i])
    {
      var c := tokens[i];
      ghost var seen := tokens[..i];
      assert tokens[..i + 1] == seen + [c];
      CountMapSnoc(seen, c);
      DedupSnoc(seen, c);
      assert c in counts <==> c in seen;
      if c in counts {
        counts := counts[c := counts[c] + 1];
      } else {
        counts := counts[c := 1];
        keys := keys + [c];
      }
      i := i + 1;
    }
    assert tokens[..|tokens|] == tokens;
    DedupSpec(tokens);
    var sorted := WithoutIgnored(SortByCount(keys, counts));
    if primary == None && |sorted| > 0 && sorted[0] != "" {
      primary := Some(sorted[0]);
    }
    p := Palette(primary, Pick(sorted, 1), Pick(sorted, 2));
  }

  /** The theme colour is taken as it is, even when it is an ignored colour, while an
      ignored colour never comes from the ranking. */
  lemma ThemeColorNotFiltered(tokens: seq<string>)
    ensures var r := RankedColors(tokens);
      forall n: nat :: Pick(r, n).Some? ==> ToLower(Pick(r, n).value) !in IgnoredColors
  {
  }

  // ---------------------------------------------------------------- logo and favicon

  const LogoSelectors: seq<string> := [
    "header img[alt*=\"logo\" i]", "header img[class*=\"logo\" i]", "nav img[alt*=\"logo\" i]",
    ".logo img", "#logo img", "a[href=\"/\"] img", "header a img:first-child",
    "img[alt*=\"logo\" i]", "img[class*=\"logo\" i]", "img[src*=\"logo\" i]"]

  /** `el.attr('src') || el.attr('data-src')`. */
  function SrcOrDataSrc(e: Element): string {
    if Attr(e, "src") != "" then Attr(e, "src") else Attr(e, "data-src")
  }

  /** What one logo selector yields: its first match's reference, resolved, unless it
      mentions tracking or a pixel. Later matches of the selector are never looked at. */
  function LogoPick(select: Query, origin: Option<string>, sel: string): Option<string> {
    match FirstMatch(select, sel)
    case None => None
    case Some(e) =>
      var src := SrcOrDataSrc(e);
      if src != "" && !Contains(src, "tracking") && !Contains(src, "pixel")
      then Some(MakeAbsolute(src, origin)) else None
  }

  /** `extractLogo($, baseUrl)`: the first selector, in order, whose first match is an
      acceptable logo decides. */
  method ExtractLogo(select: Query, origin: Option<string>) returns (r: Option<string>)
    ensures IsFirstPick(LogoSelectors, sel => LogoPick(select, origin, sel), r)
  {
    ghost var pick := sel => LogoPick(select, origin, sel);
    var i := 0;
    while i < |LogoSelectors|
      invariant 0 <= i <= |LogoSelectors|
      invariant forall j :: 0 <= j < i ==> pick(LogoSelectors[j]).None?
    {
      var el := FirstMatch(select, LogoSelectors[i]);
      if el.Some? {
        var src := SrcOrDataSrc(el.value);
        if src != "" && !Contains(src, "tracking") && !Contains(src, "pixel") {
          r := Some(MakeAbsolute(src, origin));
          assert pick(LogoSelectors[i]) == r;
          return;
        }
      }
      assert pick(LogoSelectors[i]).None?;
      i := i + 1;
    }
    r := None;
  }

  /** A rejected first match moves the search to the next selector, never to the next
      element: when every selector's first match is a tracking image, there is no logo,
      however good the second match. */
  lemma RejectedMatchFallsThrough(bad: Element, good: Element, origin: Option<string>)
    requires Contains(SrcOrDataSrc(bad), "tracking")
    ensures FirstPick(LogoSelectors, sel => LogoPick(s => [bad, good], origin, sel)) == None
  {
    var pick := sel => LogoPick(s => [bad, good], origin, sel);
    assert forall i :: 0 <= i < |LogoSelectors| ==> pick(LogoSelectors[i]).None?;
    FirstPickIsTheFirstPick(LogoSelectors, pick, None);
  }

  const IconSelector := "link[rel=\"icon\"]"
  const ShortcutIconSelector := "link[rel=\"shortcut icon\"]"
  const AppleTouchIconSelector := "link[rel=\"apple-touch-icon\"]"

  /** The `href` of the favicon link: the first `icon` link if there is one, else the
      first `shortcut icon`, else the first `apple-touch-icon` ("" when none). */
  function FaviconHref(select: Query): string {
    if |select(IconSelector)| > 0 then Attr(select(IconSelector)[0], "href")
    else if |select(ShortcutIconSelector)| > 0 then Attr(select(ShortcutIconSelector)[0], "href")
    else FirstAttr(select, AppleTouchIconSelector, "href")
  }

  /** `extractFavicon($, baseUrl)`. */
  function ExtractFavicon(select: Query, origin: Option<string>): (r: Option<string>)
    ensures r.Some? <==> FaviconHref(select) != ""
    ensures r.Some? ==> r.value == MakeAbsolute(FaviconHref(select), origin) && r.value != ""
  {
    var href := FaviconHref(select);
    if href != "" then Some(MakeAbsolute(href, origin)) else None
  }

  /** The priority is by element, not by `href`: an `icon` link without `href` gives no
      favicon even when a `shortcut icon` link has one. */
  lemma FaviconNoFallthrough(select: Query, origin: Option<string>)
    requires |select(IconSelector)| > 0 && Attr(select(IconSelector)[0], "href") == ""
    ensures ExtractFavicon(select, origin) == None
  {
  }

  /** A `shortcut icon` is used only when there is no `icon` link, and an
      `apple-touch-icon` only when there is neither. */
  lemma FaviconPriority(select: Query, origin: Option<string>)
    ensures |select(IconSelector)| > 0 ==> FaviconHref(select) == Attr(select(IconSelector)[0], "href")
    ensures |select(IconSelector)| == 0 && |select(ShortcutIconSelector)| > 0 ==>
      FaviconHref(select) == Attr(select(ShortcutIconSelector)[0], "href")
    ensures |select(IconSelector)| == 0 && |select(ShortcutIconSelector)| == 0 ==>
      FaviconHref(select) == FirstAttr(select, AppleTouchIconSelector, "href")
  {
  }

  // ---------------------------------------------------------------- hero image

  const HeroSelectors: seq<string> := [
    ".hero img", ".banner img", "[class*=\"hero\"] img", "[class*=\"banner\"] img",
    "section:first-of-type img", ".jumbotron img", "[style*=\"background-image\"]"]

  predicate IsUrlChar(c: char) { c != '\'' && c != '"' && c != ')' && !IsSpace(c) }

  /** The longest prefix of characters allowed in an unquoted `url(...)` argument. */
  function UrlRun(s: string): (r: string)
    ensures |r| <= |s| && r == s[..|r|]
    ensures forall i :: 0 <= i < |r| ==> IsUrlChar(r[i])
    ensures |r| < |s| ==> !IsUrlChar(s[|r|])
  {
    if s != [] && IsUrlChar(s[0]) then [s[0]] + UrlRun(s[1..]) else []
  }

  lemma {:induction false} UrlRunStops(u: string, rest: string)
    requires forall i :: 0 <= i < |u| ==> IsUrlChar(u[i])
    requires rest != [] && !IsUrlChar(rest[0])
    ensures UrlRun(u + rest) == u
  {
    if u != [] {
      assert (u + rest)[1..] == u[1..] + rest;
      UrlRunStops(u[1..], rest);
    }
  }

  predicate IsQuote(c: char) { c == '\'' || c == '"' }

  function DropQuote(s: string): string {
    if |s| > 0 && IsQuote(s[0]) then s[1..] else s
  }

  lemma DropQuoteNoQuote(s: string)
    requires s != [] && !IsQuote(s[0])
    ensures DropQuote(s) == s
  {
  }

  const BackgroundImagePrefix := "background-image:"

  /** The regular expression `background-image:\s*url\(['"]?([^'")\s]+)['"]?\)`, case
      insensitive, anchored at the start of `t`: its capture, if it matches there.
      Every quantifier in it is forced, so the match is decided without backtracking. */
  function BackgroundUrlAt(t: string): (r: Option<string>)
    ensures r.Some? ==> r.value != [] && forall i :: 0 <= i < |r.value| ==> IsUrlChar(r.value[i])
  {
    var n := |BackgroundImagePrefix|;
    if |t| < n || ToLower(t[..n]) != BackgroundImagePrefix then None
    else UrlCall(TrimStart(t[n..]))
  }

  /** `url\(['"]?([^'")\s]+)['"]?\)` at the start of `rest`. */
  function UrlCall(rest: string): (r: Option<string>)
    ensures r.Some? ==> r.value != [] && forall i :: 0 <= i < |r.value| ==> IsUrlChar(r.value[i])
  {
    if |rest| < 4 || ToLower(rest[..4]) != "url(" then None
    else UrlArgument(DropQuote(rest[4..]))
  }

  /** `([^'")\s]+)['"]?\)` at the start of `arg`. */
  function UrlArgument(arg: string): (r: Option<string>)
    ensures r.Some? ==> r.value != [] && forall i :: 0 <= i < |r.value| ==> IsUrlChar(r.value[i])
  {
    var cap := UrlRun(arg);
    var after := DropQuote(arg[|cap|..]);
    if cap != [] && |after| > 0 && after[0] == ')' then Some(cap) else None
  }

  /** `style.match(...)?.[1]`: the capture of the leftmost match. */
  function BackgroundImageUrl(style: string): (r: Option<string>)
    ensures r.Some? ==> r.value != [] && forall i :: 0 <= i < |r.value| ==> IsUrlChar(r.value[i])
    decreases |style|
  {
    if style == [] then None
    else if BackgroundUrlAt(style).Some? then BackgroundUrlAt(style)
    else BackgroundImageUrl(style[1..])
  }

  lemma LowerIsFixed(s: string)
    requires forall i :: 0 <= i < |s| ==> !('A' <= s[i] <= 'Z')
    ensures ToLower(s) == s
  {
    ToLowerPointwise(s);
  }

  lemma UrlArgumentOf(u: string)
    requires u != [] && forall i :: 0 <= i < |u| ==> IsUrlChar(u[i])
    ensures UrlArgument(u + ")") == Some(u)
  {
    UrlRunStops(u, ")");
    assert (u + ")")[|u|..] == ")";
    DropQuoteNoQuote(")");
  }

  lemma UrlCallOf(u: string)
    requires u != [] && forall i :: 0 <= i < |u| ==> IsUrlChar(u[i])
    ensures UrlCall("url(" + (u + ")")) == Some(u)
  {
    var rest := "url(" + (u + ")");
    assert rest[..4] == "url(";
    LowerIsFixed("url(");
    assert rest[4..] == u + ")";
    assert !IsQuote((u + ")")[0]);
    DropQuoteNoQuote(u + ")");
    UrlArgumentOf(u);
  }

  /** After the case-insensitive `background-image:` the matcher goes straight on to
      the `url(` part when no whitespace follows. */
  lemma BackgroundUrlAtPrefix(rest: string)
    requires rest != [] && !IsSpace(rest[0])
    ensures BackgroundUrlAt(BackgroundImagePrefix + rest) == UrlCall(rest)
  {
    var t := BackgroundImagePrefix + rest;
    var n := |BackgroundImagePrefix|;
    assert ToLower(t[..n]) == BackgroundImagePrefix by {
      assert t[..n] == BackgroundImagePrefix;
      LowerIsFixed(BackgroundImagePrefix);
    }
    assert TrimStart(t[n..]) == rest by {
      assert t[n..] == rest;
    }
  }

  /** Any address written without quotes, spaces or parentheses is read back out of a
      `background-image` declaration. */
  lemma BackgroundImageUrlRoundTrip(u: string)
    requires u != [] && forall i :: 0 <= i < |u| ==> IsUrlChar(u[i])
    ensures BackgroundImageUrl(BackgroundImagePrefix + ("url(" + (u + ")"))) == Some(u)
  {
    BackgroundUrlAtPrefix("url(" + (u + ")"));
    UrlCallOf(u);
  }

  /** What one hero selector yields: its first match's `src`/`data-src`, else the
      address in its inline `background-image`, resolved. */
  function HeroPick(select: Query, origin: Option<string>, sel: string): Option<string> {
    match FirstMatch(select, sel)
    case None => None
    case Some(e) =>
      var src := SrcOrDataSrc(e);
      if src != "" then Some(MakeAbsolute(src, origin))
      else
        match BackgroundImageUrl(Attr(e, "style"))
        case Some(u) => Some(MakeAbsolute(u, origin))
        case None => None
  }

  /** `extractHeroImage($, baseUrl)`. */
  method ExtractHeroImage(select: Query, origin: Option<string>) returns (r: Option<string>)
    ensures IsFirstPick(HeroSelectors, sel => HeroPick(select, origin, sel), r)
  {
    var i := 0;
    while i < |HeroSelectors|
      invariant 0 <= i <= |HeroSelectors|
      invariant forall j :: 0 <= j < i ==> HeroPick(select, origin, HeroSelectors[j]).None?
    {
      var el := FirstMatch(select, HeroSelectors[i]);
      if el.None? {
        i := i + 1;
        continue;
      }
      var src := SrcOrDataSrc(el.value);
      if src != "" {
        r := Some(MakeAbsolute(src, origin));
        assert HeroPick(select, origin, HeroSelectors[i]) == r;
        return;
      }
      var style := Attr(el.value, "style");
      var bg := BackgroundImageUrl(style);
      if bg.Some? {
        r := Some(MakeAbsolute(bg.value, origin));
        assert HeroPick(select, origin, HeroSelectors[i]) == r;
        return;
      }
      i := i + 1;
    }
    r := None;
  }

  // ---------------------------------------------------------------- fonts

  const GenericFontNames: set<string> := {"inherit", "sans-serif", "serif", "monospace", "system-ui", "-apple-system"}

  /** The family named by an inline declaration, from the text after `font-family:` and
      its spaces: quotes and semicolons removed, trimmed, cut at the first comma, trimmed. */
  function InlineFamilyName(value: string): string {
    Trim(BeforeFirst(Trim(RemoveChars(value, {'\'', '"', ';'})), ','))
  }

  /** The names the inline loop accepts, in order: non-empty and not generic. */
  function InlineCandidates(values: seq<string>): seq<string> {
    if values == [] then []
    else
      var init, name := InlineCandidates(values[..|values| - 1]), InlineFamilyName(values[|values| - 1]);
      if name != "" && ToLower(name) !in GenericFontNames then init + [name] else init
  }

  /** The Google Fonts family names the second loop accepts: the non-empty ones. */
  function GoogleCandidates(names: seq<string>): seq<string> {
    if names == [] then []
    else
      var init, name := GoogleCandidates(names[..|names| - 1]), names[|names| - 1];
      if name != "" then init + [name] else init
  }

  /** One more Google Fonts name is accepted after `accepted` when it is non-empty. */
  lemma GoogleStep(accepted: seq<string>, names: seq<string>, j: nat)
    requires j < |names|
    ensures accepted + GoogleCandidates(names[..j + 1])
      == (accepted + GoogleCandidates(names[..j])) + (if names[j] != "" then [names[j]] else [])
  {
    assert names[..j + 1][..j] == names[..j];
  }

  /** A generic family is never an inline pick. */
  lemma {:induction false} InlineCandidatesNotGeneric(values: seq<string>)
    ensures forall n :: n in InlineCandidates(values) ==> n != "" && ToLower(n) !in GenericFontNames
  {
    if values != [] {
      InlineCandidatesNotGeneric(values[..|values| - 1]);
    }
  }

  /** Every non-empty Google Fonts family is accepted, and nothing else. */
  lemma {:induction false} GoogleCandidatesMembers(names: seq<string>)
    ensures forall n :: n in GoogleCandidates(names) <==> n in names && n != ""
  {
    if names != [] {
      var init := names[..|names| - 1];
      GoogleCandidatesMembers(init);
      assert names == init + [names[|names| - 1]];
    }
  }

  /** The `@font-face` captures the third loop accepts, trimmed. */
  function FaceCandidates(captures: seq<string>): seq<string> {
    if captures == [] then []
    else
      var init, c := FaceCandidates(captures[..|captures| - 1]), captures[|captures| - 1];
      if c != "" then init + [Trim(c)] else init
  }

  /** One more `@font-face` capture is accepted, trimmed, when it is non-empty. */
  lemma FaceStep(accepted: seq<string>, captures: seq<string>, k: nat)
    requires k < |captures|
    ensures accepted + FaceCandidates(captures[..k + 1])
      == (accepted + FaceCandidates(captures[..k])) + (if captures[k] != "" then [Trim(captures[k])] else [])
  {
    assert captures[..k + 1][..k] == captures[..k];
  }

  /** The inline `font-family` values, the decoded Google Fonts families and the
      `@font-face` family captures, each in document order. */
  datatype FontSources = FontSources(inline: seq<string>, google: seq<string>, faces: seq<string>)

  /** The `families` list of `extractFonts`: the three lists in order, without repeats. */
  function FontFamilies(src: FontSources): seq<string> {
    Dedup(InlineCandidates(src.inline) + GoogleCandidates(src.google) + FaceCandidates(src.faces))
  }

  datatype Fonts = Fonts(heading: Option<string>, body: Option<string>)

  /** The first loop of `extractFonts`: the inline `font-family` declarations. */
  method CollectInlineFamilies(values: seq<string>) returns (families: seq<string>)
    ensures families == Dedup(InlineCandidates(values))
  {
    families := [];
    ghost var accepted: seq<string> := [];
    var i := 0;
    while i < |values|
      invariant 0 <= i <= |values|
      invariant accepted == InlineCandidates(values[..i])
      invariant families == Dedup(accepted)
    {
      assert values[..i + 1][..i] == values[..i];
      var name := InlineFamilyName(values[i]);
      DedupPush(accepted, name);
      if name != "" && ToLower(name) !in GenericFontNames {
        if name !in families {
          families := families + [name];
        }
        accepted := accepted + [name];
      }
      i := i + 1;
    }
    assert values[..|values|] == values;
  }

  /** The second loop: the Google Fonts families, after the names in `accepted`. */
  method AddGoogleFamilies(families: seq<string>, ghost accepted: seq<string>, names: seq<string>)
    returns (r: seq<string>)
    requires families == Dedup(accepted)
    ensures r == Dedup(accepted + GoogleCandidates(names))
  {
    r := families;
    ghost var acc := accepted;
    var j := 0;
    while j < |names|
      invariant 0 <= j <= |names|
      invariant acc == accepted + GoogleCandidates(names[..j])
      invariant r == Dedup(acc)
    {
      var name := names[j];
      GoogleStep(accepted, names, j);
      DedupPush(acc, name);
      if name != "" {
        if name !in r {
          r := r + [name];
        }
        acc := acc + [name];
      }
      j := j + 1;
    }
    assert names[..|names|] == names;
  }

  /** The third loop: the `@font-face` family names, trimmed, after `accepted`. */
  method AddFaceFamilies(families: seq<string>, ghost accepted: seq<string>, captures: seq<string>)
    returns (r: seq<string>)
    requires families == Dedup(accepted)
    ensures r == Dedup(accepted + FaceCandidates(captures))
  {
    r := families;
    ghost var acc := accepted;
    var k := 0;
    while k < |captures|
      invariant 0 <= k <= |captures|
      invariant acc == accepted + FaceCandidates(captures[..k])
      invariant r == Dedup(acc)
    {
      FaceStep(accepted, captures, k);
      if captures[k] != "" {
        var name := Trim(captures[k]);
        DedupPush(acc, name);
        if name !in r {
          r := r + [name];
        }
        acc := acc + [name];
      }
      k := k + 1;
    }
    assert captures[..|captures|] == captures;
  }

  /** `extractFonts($)`. */
  method ExtractFonts(src: FontSources) returns (f: Fonts)
    ensures var fams := FontFamilies(src);
      && f.heading == (if |fams| > 0 then Some(fams[0]) else None)
      && f.body == (if |fams| > 1 then Some(fams[1]) else f.heading)
  {
    ghost var inl := InlineCandidates(src.inline);
    ghost var goo := GoogleCandidates(src.google);
    var families := CollectInlineFamilies(src.inline);
    families := AddGoogleFamilies(families, inl, src.google);
    families := AddFaceFamilies(families, inl + goo, src.faces);
    var heading := if |families| > 0 then Some(families[0]) else None;
    f := Fonts(heading, if |families| > 1 then Some(families[1]) else heading);
  }

  /** The families are distinct and come in source order: the accepted inline names
      first, then the Google Fonts families not already listed, then the `@font-face`
      names. */
  lemma FontFamiliesOrder(src: FontSources)
    ensures NoDups(FontFamilies(src))
    ensures Dedup(InlineCandidates(src.inline)) <= FontFamilies(src)
    ensures Dedup(InlineCandidates(src.inline) + GoogleCandidates(src.google)) <= FontFamilies(src)
  {
    DedupThree(InlineCandidates(src.inline), GoogleCandidates(src.google), FaceCandidates(src.faces));
  }

  /** Every non-empty Google Fonts family is listed, and every listed family comes from
      one of the three sources. A generic name is dropped from the inline declarations
      only (`InlineCandidatesNotGeneric`). */
  lemma FontFamiliesMembers(src: FontSources)
    ensures forall i :: 0 <= i < |src.google| && src.google[i] != "" ==> src.google[i] in FontFamilies(src)
    ensures forall i :: 0 <= i < |FontFamilies(src)| ==>
      var n := FontFamilies(src)[i];
      n in InlineCandidates(src.inline) || n in src.google || n in FaceCandidates(src.faces)
  {
    var a, b, c := InlineCandidates(src.inline), GoogleCandidates(src.google), FaceCandidates(src.faces);
    DedupSpec(a + b + c);
    GoogleCandidatesMembers(src.google);
    forall i | 0 <= i < |src.google| && src.google[i] != "" ensures src.google[i] in FontFamilies(src) {
      assert src.google[i] in a + b + c;
    }
    forall i | 0 <= i < |FontFamilies(src)|
      ensures var n := FontFamilies(src)[i];
        n in InlineCandidates(src.inline) || n in src.google || n in FaceCandidates(src.faces)
    {
      assert FontFamilies(src)[i] in a + b + c;
    }
  }

  // ---------------------------------------------------------------- product images

  /** `isTrackingPixel(url, width, height)`. */
  predicate IsTrackingPixel(url: string, width: Option<int>, height: Option<int>) {
    || HasTrackingKeyword(url)
    || (Contains(url, ".gif") && (LessThan(width, 10) || LessThan(height, 10)))
    || Contains(url, "data:image")
  }

  /** The `isProduct` test, on lower-cased alt text and classes and the resolved URL. */
  predicate LooksLikeProduct(url: string, lAlt: string, lClass: string, lParent: string,
                             width: Option<int>, height: Option<int>)
  {
    || Contains(lAlt, "product") || Contains(lClass, "product") || Contains(lParent, "product")
    || Contains(url, "product") || Contains(url, "/wp-content/uploads/")
    || (GreaterThan(width, 200) && GreaterThan(height, 200))
  }

  /** One turn of the `$('img').each` loop of `extractProductImages`. */
  function ProductCandidate(e: Element, origin: Option<string>): Option<string> {
    var src := ImageSource(e);
    if src == "" then None
    else
      var url := MakeAbsolute(src, origin);
      var w, h := Dimension(e, "width"), Dimension(e, "height");
      if IsTrackingPixel(url, w, h) then None
      else if LooksLikeProduct(url, ToLower(Attr(e, "alt")), ToLower(Attr(e, "class")),
                               ToLower(e.parentClass), w, h)
      then Some(url)
      else None
  }

  function ProductCandidates(imgs: seq<Element>, origin: Option<string>): seq<string> {
    if imgs == [] then []
    else
      var init := ProductCandidates(imgs[..|imgs| - 1], origin);
      match ProductCandidate(imgs[|imgs| - 1], origin)
      case Some(u) => init + [u]
      case None => init
  }

  lemma {:induction false} ProductCandidatesFrom(imgs: seq<Element>, origin: Option<string>)
    ensures forall u :: u in ProductCandidates(imgs, origin) ==>
      exists k :: 0 <= k < |imgs| && ProductCandidate(imgs[k], origin) == Some(u)
  {
    if imgs != [] {
      var init := imgs[..|imgs| - 1];
      ProductCandidatesFrom(init, origin);
      forall k | 0 <= k < |init| ensures imgs[k] == init[k] { }
      assert ProductCandidates(imgs, origin) == ProductCandidates(init, origin)
        + (if ProductCandidate(imgs[|imgs| - 1], origin).Some? then [ProductCandidate(imgs[|imgs| - 1], origin).value] else []);
    }
  }

  /** `extractProductImages($, baseUrl)` over the matches of `img`. */
  method ExtractProductImages(imgs: seq<Element>, origin: Option<string>) returns (r: seq<string>)
    ensures r == Take(Dedup(ProductCandidates(imgs, origin)), 10)
  {
    var productImages: seq<string> := [];
    var i := 0;
    while i < |imgs|
      invariant 0 <= i <= |imgs|
      invariant productImages == ProductCandidates(imgs[..i], origin)
    {
      assert imgs[..i + 1][..i] == imgs[..i];
      var el := imgs[i];
      var src := ImageSource(el);
      if src != "" {
        var absoluteUrl := MakeAbsolute(src, origin);
        var alt := ToLower(Attr(el, "alt"));
        var className := ToLower(Attr(el, "class"));
        var parentClass := ToLower(el.parentClass);
        var width := Dimension(el, "width");
        var height := Dimension(el, "height");
        if !IsTrackingPixel(absoluteUrl, width, height)
          && LooksLikeProduct(absoluteUrl, alt, className, parentClass, width, height)
        {
          productImages := productImages + [absoluteUrl];
        }
      }
      i := i + 1;
    }
    assert imgs[..|imgs|] == imgs;
    r := Take(Dedup(productImages), 10);
  }

  /** What an accepted product image is: the resolved address of some image on the
      page whose source is set, which is not a tracking pixel and which passes the
      `isProduct` test on its lower-cased alt text and classes and its size. */
  ghost predicate ProductImageOf(imgs: seq<Element>, origin: Option<string>, u: string) {
    exists k :: 0 <= k < |imgs| && ImageSource(imgs[k]) != ""
      && u == MakeAbsolute(ImageSource(imgs[k]), origin)
      && !IsTrackingPixel(u, Dimension(imgs[k], "width"), Dimension(imgs[k], "height"))
      && LooksLikeProduct(u, ToLower(Attr(imgs[k], "alt")), ToLower(Attr(imgs[k], "class")),
                          ToLower(imgs[k].parentClass), Dimension(imgs[k], "width"), Dimension(imgs[k], "height"))
  }

  /** Every image that passes both tests has its address pushed. */
  lemma {:induction false} ProductCandidateListed(imgs: seq<Element>, origin: Option<string>, k: nat)
    requires k < |imgs| && ProductCandidate(imgs[k], origin).Some?
    ensures ProductCandidate(imgs[k], origin).value in ProductCandidates(imgs, origin)
  {
    var init := imgs[..|imgs| - 1];
    assert ProductCandidates(imgs, origin) == ProductCandidates(init, origin)
      + (if ProductCandidate(imgs[|imgs| - 1], origin).Some? then [ProductCandidate(imgs[|imgs| - 1], origin).value] else []);
    if k < |imgs| - 1 {
      assert init[k] == imgs[k];
      ProductCandidateListed(init, origin, k);
    }
  }

  /** Every candidate is such an image. */
  lemma ProductCandidatesSound(imgs: seq<Element>, origin: Option<string>, u: string)
    requires u in ProductCandidates(imgs, origin)
    ensures ProductImageOf(imgs, origin, u)
    ensures !HasTrackingKeyword(u) && !Contains(u, "data:image")
  {
    ProductCandidatesFrom(imgs, origin);
    var k :| 0 <= k < |imgs| && ProductCandidate(imgs[k], origin) == Some(u);
  }

  /** At most ten distinct product images, none a tracking pixel or inline image, each
      the resolved address of an image on the page. */
  lemma ProductImagesProperties(imgs: seq<Element>, origin: Option<string>)
    ensures var r := Take(Dedup(ProductCandidates(imgs, origin)), 10);
      && |r| <= 10 && NoDups(r)
      && forall i :: 0 <= i < |r| ==>
           !HasTrackingKeyword(r[i]) && !Contains(r[i], "data:image")
           && ProductImageOf(imgs, origin, r[i])
  {
    var d := Dedup(ProductCandidates(imgs, origin));
    DedupSpec(ProductCandidates(imgs, origin));
    var r := Take(d, 10);
    TakeNoDups(d, 10);
    forall i | 0 <= i < |r|
      ensures !HasTrackingKeyword(r[i]) && !Contains(r[i], "data:image")
           && ProductImageOf(imgs, origin, r[i])
    {
      assert r[i] == d[i];
      ProductCandidatesSound(imgs, origin, r[i]);
    }
  }

  /** Every product image of the page is found before the cap, and each is kept when
      the page has at most ten distinct ones. */
  lemma ProductImagesComplete(imgs: seq<Element>, origin: Option<string>, k: nat)
    requires k < |imgs| && ProductCandidate(imgs[k], origin).Some?
    ensures var d := Dedup(ProductCandidates(imgs, origin));
      && ProductCandidate(imgs[k], origin).value in d
      && (|d| <= 10 ==> ProductCandidate(imgs[k], origin).value in Take(d, 10))
  {
    ProductCandidateListed(imgs, origin, k);
    var c := ProductCandidates(imgs, origin);
    var j :| 0 <= j < |c| && c[j] == ProductCandidate(imgs[k], origin).value;
    DedupSpec(c);
  }

  // ---------------------------------------------------------------- assembly

  /** The colour literals, font-family captures and Google Fonts families pulled out of
      the page's `<style>` text and font links by regular expressions. */
  datatype StyleTokens = StyleTokens(colors: seq<string>, fonts: FontSources)

  /** `ScrapedBranding`. */
  datatype ScrapedBranding = ScrapedBranding(
    logoUrl: Option<string>, faviconUrl: Option<string>,
    primaryColor: Option<string>, secondaryColor: Option<string>, accentColor: Option<string>,
    headingFont: Option<string>, bodyFont: Option<string>,
    heroImageUrl: Option<string>, productImages: seq<string>)

  const ThemeColorSelector := "meta[name=\"theme-color\"]"
  const OgImageSelector := "meta[property=\"og:image\"]"

  /** `meta[property="og:image"]` content, trimmed, resolved, when not empty. */
  function OgImageFallback(select: Query, origin: Option<string>): (r: Option<string>)
    ensures r.Some? <==> Trim(FirstAttr(select, OgImageSelector, "content")) != ""
  {
    var og := Trim(FirstAttr(select, OgImageSelector, "content"));
    if og != "" then Some(MakeAbsolute(og, origin)) else None
  }

  /** `extractBranding(html, $, baseUrl)`. */
  method ExtractBranding(select: Query, origin: Option<string>, style: StyleTokens) returns (b: ScrapedBranding)
    ensures IsFirstPick(LogoSelectors, sel => LogoPick(select, origin, sel), b.logoUrl)
    ensures b.faviconUrl == ExtractFavicon(select, origin)
    ensures var theme := FirstAttr(select, ThemeColorSelector, "content");
      && (theme != "" ==> b.primaryColor == Some(theme))
      && (theme == "" ==> b.primaryColor == Pick(RankedColors(style.colors), 0))
    ensures b.secondaryColor == Pick(RankedColors(style.colors), 1)
    ensures b.accentColor == Pick(RankedColors(style.colors), 2)
    ensures var fams := FontFamilies(style.fonts);
      && b.headingFont == (if |fams| > 0 then Some(fams[0]) else None)
      && b.bodyFont == (if |fams| > 1 then Some(fams[1]) else b.headingFont)
    // the og:image is a fallback only: it is used when no hero selector produced an image
    ensures var hero := FirstPick(HeroSelectors, sel => HeroPick(select, origin, sel));
      b.heroImageUrl == if hero.Some? then hero else OgImageFallback(select, origin)
    ensures b.productImages == Take(Dedup(ProductCandidates(select("img"), origin)), 10)
  {
    var colors := ExtractColors(FirstAttr(select, ThemeColorSelector, "content"), style.colors);
    var fonts := ExtractFonts(style.fonts);
    var hero := ExtractHeroImage(select, origin);
    FirstPickIsTheFirstPick(HeroSelectors, sel => HeroPick(select, origin, sel), hero);
    var logo := ExtractLogo(select, origin);
    var products := ExtractProductImages(select("img"), origin);
    b := ScrapedBranding(
      logo, ExtractFavicon(select, origin),
      colors.primary, colors.secondary, colors.accent,
      fonts.heading, fonts.body,
      if hero.Some? then hero else OgImageFallback(select, origin),
      products);
  }
}
