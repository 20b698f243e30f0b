/** Address resolution shared by every extractor (packages/harvest/src/extractors/helpers.ts). */
module Helpers {
  import opened Outcomes
  import opened Strings

  /** `makeAbsolute(src, baseUrl)`. `origin` is `new URL(baseUrl).origin`, or `None`
      when the URL constructor throws; the parse itself is foreign. The rules are
      tried in order, so a protocol-relative `//host/p` is never read as
      root-relative, and only the prefix `http` counts as "already absolute". */
  function MakeAbsolute(src: string, origin: Option<string>): string {
    if src == "" then ""
    else
      match origin
      case None => src
      case Some(o) =>
        if StartsWith(src, "//") then "https:" + src
        else if StartsWith(src, "/") then o + src
        else if !StartsWith(src, "http") then o + "/" + src
        else src
  }

  /** The rules of `makeAbsolute`, in the order the code tries them. */
  lemma MakeAbsoluteRules(src: string, origin: Option<string>)
    ensures var r := MakeAbsolute(src, origin);
      // empty in, empty out, and only then
      && (r == "" <==> src == "")
      // the reference itself is never rewritten, only prefixed: no `../` resolution
      && EndsWith(r, src)
      // an unparsable base leaves every reference as it is
      && (origin.None? ==> r == src)
      && (origin.Some? && StartsWith(src, "//") ==> r == "https:" + src)
      && (origin.Some? && StartsWith(src, "/") && !StartsWith(src, "//") ==> r == origin.value + src)
      && (origin.Some? && src != "" && !StartsWith(src, "/") && !StartsWith(src, "http") ==>
            r == origin.value + "/" + src)
      && (StartsWith(src, "http") ==> r == src)
  {
    assert StartsWith(src, "http") ==> src[0] == 'h';
  }

  /** Resolving twice is resolving once, for a base whose origin is an http(s) origin. */
  lemma MakeAbsoluteIdempotent(src: string, origin: Option<string>)
    requires origin.Some? ==> StartsWith(origin.value, "http")
    ensures MakeAbsolute(MakeAbsolute(src, origin), origin) == MakeAbsolute(src, origin)
  {
    var r := MakeAbsolute(src, origin);
    MakeAbsoluteRules(src, origin);
    MakeAbsoluteRules(r, origin);
    if origin.Some? && src != "" {
      var o := origin.value;
      if StartsWith(src, "//") {
        assert ("https:" + src)[..4] == "http";
      } else if StartsWith(src, "/") {
        assert (o + src)[..4] == o[..4];
      } else if !StartsWith(src, "http") {
        assert (o + "/" + src)[..4] == o[..4];
      }
    }
  }

  /** With an http(s) origin, every non-empty reference comes out starting with `http`. */
  lemma MakeAbsoluteIsHttp(src: string, origin: Option<string>)
    requires origin.Some? && StartsWith(origin.value, "http")
    requires src != ""
    ensures StartsWith(MakeAbsolute(src, origin), "http")
  {
    MakeAbsoluteRules(src, origin);
    var o := origin.value;
    if StartsWith(src, "//") {
      assert ("https:" + src)[..4] == "http";
    } else if StartsWith(src, "/") {
      assert (o + src)[..4] == o[..4];
    } else if !StartsWith(src, "http") {
      assert (o + "/" + src)[..4] == o[..4];
    }
  }

  /** The examples of the design: `//x/y`, `/p`, a relative path and an absolute URL. */
  lemma MakeAbsoluteExamples()
    ensures MakeAbsolute("//x/y", Some("https://a.com")) == "https://x/y"
    ensures MakeAbsolute("/p", Some("https://a.com")) == "https://a.com/p"
    ensures MakeAbsolute("a/../b.png", Some("https://a.com")) == "https://a.com/a/../b.png"
    ensures MakeAbsolute("http://x.com/y", Some("https://a.com")) == "http://x.com/y"
  {
    var o := "https://a.com";
    assert StartsWith("//x/y", "//");
    assert "https:" + "//x/y" == "https://x/y";
    assert "/p"[1] == 'p';
    assert StartsWith("/p", "/") && !StartsWith("/p", "//");
    assert o + "/p" == "https://a.com/p";
    assert "a/../b.png"[0] == 'a';
    assert !StartsWith("a/../b.png", "/") && !StartsWith("a/../b.png", "http");
    assert o + "/" + "a/../b.png" == "https://a.com/a/../b.png";
    assert "http://x.com/y"[..4] == "http";
  }
}
