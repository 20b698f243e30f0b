/** The image inventory extractor and the image categoriser
    (packages/harvest/src/extractors/assets.ts). */
module Assets {
  import opened Outcomes
  import opened Strings
  import opened Seqs
  import opened Dom
  import opened Helpers

  /** `$(el).attr('src') || $(el).attr('data-src') || $(el).attr('data-lazy-src')`. */
  function ImageSource(e: Element): (src: string)
    ensures Attr(e, "src") != "" ==> src == Attr(e, "src")
    ensures Attr(e, "src") == "" && Attr(e, "data-src") != "" ==> src == Attr(e, "data-src")
    ensures Attr(e, "src") == "" && Attr(e, "data-src") == "" ==> src == Attr(e, "data-lazy-src")
  {
    if Attr(e, "src") != "" then Attr(e, "src")
    else if Attr(e, "data-src") != "" then Attr(e, "data-src")
    else Attr(e, "data-lazy-src")
  }

  predicate IsDigit(c: char) { '0' <= c <= '9' }

  /** The longest prefix of decimal digits. */
  function DigitRun(s: string): (d: string)
    ensures |d| <= |s| && d == s[..|d|]
    ensures forall i :: 0 <= i < |d| ==> IsDigit(d[i])
    ensures |d| < |s| ==> !IsDigit(s[|d|])
  {
    if s != [] && IsDigit(s[0]) then [s[0]] + DigitRun(s[1..]) else []
  }

  function DigitsValue(d: string): nat
    requires forall i :: 0 <= i < |d| ==> IsDigit(d[i])
  {
    if d == [] then 0
    else
      var last := d[|d| - 1];
      assert IsDigit(last);
      10 * DigitsValue(d[..|d| - 1]) + (last as int - '0' as int)
  }

  /** `parseInt(s, 10)`; `None` is `NaN` (no digits after the optional sign). */
  function ParseInt(s: string): (r: Option<int>)
    ensures r.None? <==> var t := TrimStart(s);
      var body := if |t| > 0 && (t[0] == '-' || t[0] == '+') then t[1..] else t;
      DigitRun(body) == []
  {
    var t := TrimStart(s);
    var negative := |t| > 0 && t[0] == '-';
    var body := if |t| > 0 && (t[0] == '-' || t[0] == '+') then t[1..] else t;
    var d := DigitRun(body);
    if d == [] then None
    else if negative then Some(-(DigitsValue(d) as int))
    else Some(DigitsValue(d))
  }

  /** `parseInt($(el).attr(name) || '0', 10)`: a missing attribute reads as 0. */
  function Dimension(e: Element, name: string): (r: Option<int>)
    ensures Attr(e, name) == "" ==> r == Some(0)
  {
    assert DigitRun("0") == "0";
    assert DigitsValue("0") == 0;
    ParseInt(if Attr(e, name) != "" then Attr(e, name) else "0")
  }

  /** `v < k` where `v` may be `NaN`: every comparison with `NaN` is false. */
  predicate LessThan(v: Option<int>, k: int) { v.Some? && v.value < k }

  predicate GreaterThan(v: Option<int>, k: int) { v.Some? && v.value > k }

  predicate HasTrackingKeyword(url: string) {
    Contains(url, "tracking") || Contains(url, "pixel") || Contains(url, "1x1") || Contains(url, "spacer")
  }

  /** `isFiltered(url, width, height)`: tracking keywords, or a gif under 10px on a side. */
  predicate IsFiltered(url: string, width: Option<int>, height: Option<int>) {
    HasTrackingKeyword(url) || (Contains(url, ".gif") && (LessThan(width, 10) || LessThan(height, 10)))
  }

  /** One turn of the `$('img').each` loop of `extractImages`, exactly as written:
      the `data:` test is made on the URL after resolution. */
  function ImageCandidateAsWritten(e: Element, origin: Option<string>): Option<string> {
    var src := ImageSource(e);
    if src == "" then None
    else
      var url := MakeAbsolute(src, origin);
      if url == "" || StartsWith(url, "data:") then None
      else if IsFiltered(url, Dimension(e, "width"), Dimension(e, "height")) then None
      else Some(url)
  }

  /** With a parsable base, resolution rewrites `data:x` into `origin/data:x`, so the
      source's `data:` test never fires and an inline image that passes the other
      filters is listed. */
  lemma DataUriKeptAsWritten(e: Element, origin: string)
    requires StartsWith(ImageSource(e), "data:")
    requires StartsWith(origin, "http")
    requires !IsFiltered(origin + "/" + ImageSource(e), Dimension(e, "width"), Dimension(e, "height"))
    ensures ImageCandidateAsWritten(e, Some(origin)) == Some(origin + "/" + ImageSource(e))
  {
    var src := ImageSource(e);
    var url := origin + "/" + src;
    assert src[..5][0] == src[0] == 'd';
    assert origin[..4][0] == origin[0] == 'h';
    FirstCharMismatch(src, "/");
    FirstCharMismatch(src, "http");
    MakeAbsoluteRules(src, Some(origin));
    assert url[0] == 'h';
    FirstCharMismatch(url, "data:");
  }

  /** One turn of the loop with the `data:` test made on the reference itself, as the
      filter evidently intends: inline images are dropped whatever the base. */
  function ImageCandidate(e: Element, origin: Option<string>): Option<string> {
    var src := ImageSource(e);
    if src == "" || StartsWith(src, "data:") then None
    else ImageCandidateAsWritten(e, origin)
  }

  /** A listed URL resolves a non-inline reference and passes every filter; a dropped
      image fails one of them. */
  lemma ImageCandidateSound(e: Element, origin: Option<string>)
    ensures var r := ImageCandidate(e, origin); var src := ImageSource(e);
      && (r.Some? ==>
            && src != "" && !StartsWith(src, "data:")
            && r.value == MakeAbsolute(src, origin)
            && !StartsWith(r.value, "data:")
            && !IsFiltered(r.value, Dimension(e, "width"), Dimension(e, "height")))
      && (r.None? ==>
            || src == "" || StartsWith(src, "data:") || StartsWith(MakeAbsolute(src, origin), "data:")
            || IsFiltered(MakeAbsolute(src, origin), Dimension(e, "width"), Dimension(e, "height")))
  {
  }

  /** The inline image that the code as written keeps is dropped here. */
  lemma DataUriDropped(e: Element, origin: Option<string>)
    requires StartsWith(ImageSource(e), "data:")
    ensures ImageCandidate(e, origin).None?
  {
    assert ImageSource(e) != "";
  }

  /** The URLs the loop pushes, in document order, before deduplication. */
  function Candidates(imgs: seq<Element>, origin: Option<string>): seq<string> {
    if imgs == [] then []
    else
      var init := Candidates(imgs[..|imgs| - 1], origin);
      match ImageCandidate(imgs[|imgs| - 1], origin)
      case Some(u) => init + [u]
      case None => init
  }

  /** Every pushed URL is the candidate of some image. */
  lemma {:induction false} CandidatesFromImages(imgs: seq<Element>, origin: Option<string>)
    ensures forall u :: u in Candidates(imgs, origin) ==>
      exists k :: 0 <= k < |imgs| && ImageCandidate(imgs[k], origin) == Some(u)
  {
    if imgs != [] {
      var init := imgs[..|imgs| - 1];
      CandidatesFromImages(init, origin);
      forall u | u in Candidates(imgs, origin)
        ensures exists k :: 0 <= k < |imgs| && ImageCandidate(imgs[k], origin) == Some(u)
      {
        if u in Candidates(init, origin) {
          var k :| 0 <= k < |init| && ImageCandidate(init[k], origin) == Some(u);
          assert imgs[k] == init[k];
        } else {
          assert ImageCandidate(imgs[|imgs| - 1], origin) == Some(u);
        }
      }
    }
  }

  /** Every image that passes the filters has its URL pushed. */
  lemma {:induction false} CandidateListed(imgs: seq<Element>, origin: Option<string>, k: nat)
    requires k < |imgs| && ImageCandidate(imgs[k], origin).Some?
    ensures ImageCandidate(imgs[k], origin).value in Candidates(imgs, origin)
  {
    var init := imgs[..|imgs| - 1];
    CandidatesStep(imgs, origin);
    if k < |imgs| - 1 {
      assert init[k] == imgs[k];
      CandidateListed(init, origin, k);
    }
  }

  /** The last image adds its URL, if any, after those of the earlier ones. */
  lemma CandidatesStep(imgs: seq<Element>, origin: Option<string>)
    requires imgs != []
    ensures var last := ImageCandidate(imgs[|imgs| - 1], origin);
      Candidates(imgs, origin) == Candidates(imgs[..|imgs| - 1], origin) + (if last.Some? then [last.value] else [])
  {
  }

  /** `extractImages($, baseUrl)` over the matches of `img`, in document order. */
  method ExtractImages(imgs: seq<Element>, origin: Option<string>) returns (r: seq<string>)
    ensures r == Dedup(Candidates(imgs, origin))
  {
    var images: seq<string> := [];
    var i := 0;
    while i < |imgs|
      invariant 0 <= i <= |imgs|
      invariant images == Candidates(imgs[..i], origin)
    {
      assert imgs[..i + 1][..i] == imgs[..i];
      var src := ImageSource(imgs[i]);
      if src != "" && !StartsWith(src, "data:") {
        var url := MakeAbsolute(src, origin);
        if url != "" && !StartsWith(url, "data:")
          && !IsFiltered(url, Dimension(imgs[i], "width"), Dimension(imgs[i], "height"))
        {
          images := images + [url];
        }
      }
      i := i + 1;
    }
    assert imgs[..|imgs|] == imgs;
    r := Dedup(images);
  }

  /** The inventory holds no inline or tracking image and no small gif: each entry is the
      URL of an image that passed every filter. */
  lemma ExtractImagesSound(imgs: seq<Element>, origin: Option<string>, i: nat)
    requires i < |Dedup(Candidates(imgs, origin))|
    ensures var u := Dedup(Candidates(imgs, origin))[i];
      && !StartsWith(u, "data:") && !HasTrackingKeyword(u)
      && exists k :: 0 <= k < |imgs| && ImageCandidate(imgs[k], origin) == Some(u)
             && !StartsWith(ImageSource(imgs[k]), "data:")
             && !(Contains(u, ".gif") && (LessThan(Dimension(imgs[k], "width"), 10)
                                         || LessThan(Dimension(imgs[k], "height"), 10)))
  {
    var u := Dedup(Candidates(imgs, origin))[i];
    DedupSpec(Candidates(imgs, origin));
    assert u in Candidates(imgs, origin);
    CandidatesFromImages(imgs, origin);
    var k :| 0 <= k < |imgs| && ImageCandidate(imgs[k], origin) == Some(u);
    ImageCandidateSound(imgs[k], origin);
  }

  /** Every image that passes the filters is listed, exactly once. */
  lemma ExtractImagesComplete(imgs: seq<Element>, origin: Option<string>, k: nat)
    requires k < |imgs| && ImageCandidate(imgs[k], origin).Some?
    ensures ImageCandidate(imgs[k], origin).value in Dedup(Candidates(imgs, origin))
    ensures NoDups(Dedup(Candidates(imgs, origin)))
  {
    CandidateListed(imgs, origin, k);
    var c := Candidates(imgs, origin);
    var j :| 0 <= j < |c| && c[j] == ImageCandidate(imgs[k], origin).value;
    DedupSpec(c);
  }

  /** A gif without a width attribute is never listed. */
  lemma DimensionlessGifExcluded(e: Element, origin: Option<string>)
    requires Attr(e, "width") == ""
    requires ImageSource(e) != "" && Contains(MakeAbsolute(ImageSource(e), origin), ".gif")
    ensures ImageCandidate(e, origin).None?
  {
  }

  /** The URLs the loop as written pushes, in document order, before deduplication. */
  function CandidatesAsWritten(imgs: seq<Element>, origin: Option<string>): seq<string> {
    if imgs == [] then []
    else
      var init := CandidatesAsWritten(imgs[..|imgs| - 1], origin);
      match ImageCandidateAsWritten(imgs[|imgs| - 1], origin)
      case Some(u) => init + [u]
      case None => init
  }

  /** Every URL pushed by the loop as written is the candidate of some image. */
  lemma {:induction false} CandidatesAsWrittenFrom(imgs: seq<Element>, origin: Option<string>)
    ensures forall u :: u in CandidatesAsWritten(imgs, origin) ==>
      exists k :: 0 <= k < |imgs| && ImageCandidateAsWritten(imgs[k], origin) == Some(u)
  {
    if imgs != [] {
      var init := imgs[..|imgs| - 1];
      CandidatesAsWrittenFrom(init, origin);
      CandidatesAsWrittenStep(imgs, origin);
      forall u | u in CandidatesAsWritten(imgs, origin)
        ensures exists k :: 0 <= k < |imgs| && ImageCandidateAsWritten(imgs[k], origin) == Some(u)
      {
        if u in CandidatesAsWritten(init, origin) {
          var k :| 0 <= k < |init| && ImageCandidateAsWritten(init[k], origin) == Some(u);
          assert imgs[k] == init[k];
        } else {
          assert ImageCandidateAsWritten(imgs[|imgs| - 1], origin) == Some(u);
        }
      }
    }
  }

  /** Every image that passes the filters as written has its URL pushed. */
  lemma {:induction false} CandidateAsWrittenListed(imgs: seq<Element>, origin: Option<string>, k: nat)
    requires k < |imgs| && ImageCandidateAsWritten(imgs[k], origin).Some?
    ensures ImageCandidateAsWritten(imgs[k], origin).value in CandidatesAsWritten(imgs, origin)
  {
    var init := imgs[..|imgs| - 1];
    CandidatesAsWrittenStep(imgs, origin);
    if k < |imgs| - 1 {
      assert init[k] == imgs[k];
      CandidateAsWrittenListed(init, origin, k);
    }
  }

  lemma CandidatesAsWrittenStep(imgs: seq<Element>, origin: Option<string>)
    requires imgs != []
    ensures var last := ImageCandidateAsWritten(imgs[|imgs| - 1], origin);
      CandidatesAsWritten(imgs, origin)
        == CandidatesAsWritten(imgs[..|imgs| - 1], origin) + (if last.Some? then [last.value] else [])
  {
  }

  /** `extractImages($, baseUrl)` exactly as written: the `data:` test is made on the
      resolved URL only. */
  method ExtractImagesAsWritten(imgs: seq<Element>, origin: Option<string>) returns (r: seq<string>)
    ensures r == Dedup(CandidatesAsWritten(imgs, origin))
  {
    var images: seq<string> := [];
    var i := 0;
    while i < |imgs|
      invariant 0 <= i <= |imgs|
      invariant images == CandidatesAsWritten(imgs[..i], origin)
    {
      assert imgs[..i + 1][..i] == imgs[..i];
      var src := ImageSource(imgs[i]);
      if src != "" {
        var url := MakeAbsolute(src, origin);
        if url != "" && !StartsWith(url, "data:")
          && !IsFiltered(url, Dimension(imgs[i], "width"), Dimension(imgs[i], "height"))
        {
          images := images + [url];
        }
      }
      i := i + 1;
    }
    assert imgs[..|imgs|] == imgs;
    r := Dedup(images);
  }

  /** The inventory as written: each entry is the resolved URL of an image that passed
      every filter, and no resolved URL starts with `data:`. */
  lemma ExtractImagesAsWrittenSound(imgs: seq<Element>, origin: Option<string>, i: nat)
    requires i < |Dedup(CandidatesAsWritten(imgs, origin))|
    ensures var u := Dedup(CandidatesAsWritten(imgs, origin))[i];
      && !StartsWith(u, "data:") && !HasTrackingKeyword(u)
      && exists k :: 0 <= k < |imgs| && ImageCandidateAsWritten(imgs[k], origin) == Some(u)
             && u == MakeAbsolute(ImageSource(imgs[k]), origin)
             && !IsFiltered(u, Dimension(imgs[k], "width"), Dimension(imgs[k], "height"))
  {
    var u := Dedup(CandidatesAsWritten(imgs, origin))[i];
    DedupSpec(CandidatesAsWritten(imgs, origin));
    assert u in CandidatesAsWritten(imgs, origin);
    CandidatesAsWrittenFrom(imgs, origin);
    var k :| 0 <= k < |imgs| && ImageCandidateAsWritten(imgs[k], origin) == Some(u);
  }

  /** Every image that passes the filters as written is listed, exactly once. */
  lemma ExtractImagesAsWrittenComplete(imgs: seq<Element>, origin: Option<string>, k: nat)
    requires k < |imgs| && ImageCandidateAsWritten(imgs[k], origin).Some?
    ensures ImageCandidateAsWritten(imgs[k], origin).value in Dedup(CandidatesAsWritten(imgs, origin))
    ensures NoDups(Dedup(CandidatesAsWritten(imgs, origin)))
  {
    CandidateAsWrittenListed(imgs, origin, k);
    var c := CandidatesAsWritten(imgs, origin);
    var j :| 0 <= j < |c| && c[j] == ImageCandidateAsWritten(imgs[k], origin).value;
    DedupSpec(c);
  }

  /** The two filters differ only on inline sources: on a page without `data:` image
      sources the corrected inventory is the inventory as written. */
  lemma {:induction false} CandidatesAgreeWithoutInline(imgs: seq<Element>, origin: Option<string>)
    requires forall k :: 0 <= k < |imgs| ==> !StartsWith(ImageSource(imgs[k]), "data:")
    ensures Candidates(imgs, origin) == CandidatesAsWritten(imgs, origin)
  {
    if imgs != [] {
      var init := imgs[..|imgs| - 1];
      forall k | 0 <= k < |init|
        ensures !StartsWith(ImageSource(init[k]), "data:")
      {
        assert init[k] == imgs[k];
      }
      CandidatesAgreeWithoutInline(init, origin);
    }
  }

  /** A page whose only image is inline: the code as written lists it under the origin,
      the corrected extractor lists nothing. */
  lemma InlineImagePageDiffers(e: Element, origin: string)
    requires StartsWith(ImageSource(e), "data:")
    requires StartsWith(origin, "http")
    requires !IsFiltered(origin + "/" + ImageSource(e), Dimension(e, "width"), Dimension(e, "height"))
    ensures Dedup(CandidatesAsWritten([e], Some(origin))) == [origin + "/" + ImageSource(e)]
    ensures Dedup(Candidates([e], Some(origin))) == []
  {
    DataUriKeptAsWritten(e, origin);
    DataUriDropped(e, Some(origin));
    assert [e][..0] == [];
  }

  datatype Category = Logo | Hero | Product | Section | Icon | Other

  predicate IsLogoImage(lUrl: string, lAlt: string, lClass: string) {
    Contains(lAlt, "logo") || Contains(lClass, "logo") || Contains(lUrl, "logo")
  }

  predicate IsHeroImage(lClass: string, lParent: string) {
    Contains(lClass, "hero") || Contains(lParent, "hero") || Contains(lClass, "banner") || Contains(lParent, "banner")
  }

  predicate IsProductImage(lUrl: string, lAlt: string, lClass: string, lParent: string, width: int, height: int) {
    || Contains(lAlt, "product") || Contains(lClass, "product") || Contains(lParent, "product")
    || Contains(lUrl, "product") || Contains(lUrl, "/wp-content/uploads/")
    || (width > 200 && height > 200)
  }

  predicate IsSectionImage(lClass: string, lParent: string) {
    Contains(lClass, "section") || Contains(lParent, "section") || Contains(lParent, "feature")
  }

  predicate IsIconImage(lUrl: string, lAlt: string, lClass: string, width: int, height: int) {
    || Contains(lUrl, "icon") || Contains(lAlt, "icon") || Contains(lClass, "icon")
    || (0 < width <= 64 && 0 < height <= 64)
  }

  /** `categorizeImage(url, alt, className, parentClass, width, height)`: the first
      rule that holds decides, with precedence logo > hero > product > section > icon > other,
      matching keywords in lower case. */
  function CategorizeImage(url: string, alt: string, className: string, parentClass: string,
                           width: int, height: int): (c: Category)
    ensures var u, a, k, p := ToLower(url), ToLower(alt), ToLower(className), ToLower(parentClass);
      && (c == Logo <==> IsLogoImage(u, a, k))
      && (c == Hero <==> !IsLogoImage(u, a, k) && IsHeroImage(k, p))
      && (c == Product <==> !IsLogoImage(u, a, k) && !IsHeroImage(k, p)
                             && IsProductImage(u, a, k, p, width, height))
      && (c == Section <==> !IsLogoImage(u, a, k) && !IsHeroImage(k, p)
                             && !IsProductImage(u, a, k, p, width, height) && IsSectionImage(k, p))
      && (c == Icon <==> !IsLogoImage(u, a, k) && !IsHeroImage(k, p)
                          && !IsProductImage(u, a, k, p, width, height) && !IsSectionImage(k, p)
                          && IsIconImage(u, a, k, width, height))
  {
    var lUrl, lAlt, lClass, lParent := ToLower(url), ToLower(alt), ToLower(className), ToLower(parentClass);
    if IsLogoImage(lUrl, lAlt, lClass) then Logo
    else if IsHeroImage(lClass, lParent) then Hero
    else if IsProductImage(lUrl, lAlt, lClass, lParent, width, height) then Product
    else if IsSectionImage(lClass, lParent) then Section
    else if IsIconImage(lUrl, lAlt, lClass, width, height) then Icon
    else Other
  }

  /** Keyword matching ignores case: the category of an image does not change when its
      URL, alt text or classes change case. */
  lemma CategorizeIgnoresCase(url: string, alt: string, className: string, parentClass: string,
                              width: int, height: int)
    ensures CategorizeImage(url, alt, className, parentClass, width, height)
         == CategorizeImage(ToLower(url), ToLower(alt), ToLower(className), ToLower(parentClass), width, height)
  {
    ToLowerIdempotent(url);
    ToLowerIdempotent(alt);
    ToLowerIdempotent(className);
    ToLowerIdempotent(parentClass);
  }
}
