/** Resolving a CMS media URL, and the choice of image element. */
module StrapiImage {
  import opened Wrappers

  const DEFAULT_STRAPI_URL := "http://localhost:1337"

  /** `STRAPI_API_URL`: the environment's value, or the local default when it is unset (`??`). */
  function StrapiApiUrl(env: Option<string>): (base: string)
    ensures env.None? ==> base == DEFAULT_STRAPI_URL
    ensures env.Some? ==> base == env.value
  {
    env.GetOr(DEFAULT_STRAPI_URL)
  }

  /** URLs used as they are: inline data, absolute ("http…", which includes any "http"-prefixed text) and protocol-relative. */
  predicate IsResolved(url: string) {
    "data:" <= url || "http" <= url || "//" <= url
  }

  /** `getStrapiMedia` */
  function GetStrapiMedia(base: string, url: Option<string>): (r: Option<string>)
    ensures r.None? <==> url.None?
    ensures url.Some? && IsResolved(url.value) ==> r == url
    ensures url.Some? && !IsResolved(url.value) ==>
      r.Some? && base <= r.value && r.value[|base|..] == url.value
  {
    match url
    case None => None
    case Some(u) =>
      if "data:" <= u then Some(u)
      else if "http" <= u || "//" <= u then Some(u)
      else Some(base + u)
  }

  /**
   * Resolving twice is resolving once when the base is itself an absolute
   * or protocol-relative address (or inline data).
   */
  lemma GetStrapiMediaIdempotent(base: string, url: Option<string>)
    requires IsResolved(base)
    ensures GetStrapiMedia(base, GetStrapiMedia(base, url)) == GetStrapiMedia(base, url)
  {
    if url.Some? && !IsResolved(url.value) {
      var r := base + url.value;
      PrefixOfPrefix("data:", base, r);
      PrefixOfPrefix("http", base, r);
      PrefixOfPrefix("//", base, r);
    }
  }

  /** With a relative base, a second resolution prefixes the base again. */
  lemma RelativeBaseNotIdempotent()
    ensures GetStrapiMedia("cms", Some("/a.png")) == Some("cms/a.png")
    ensures GetStrapiMedia("cms", Some("cms/a.png")) == Some("cmscms/a.png")
  {
    var first, second := "/a.png", "cms/a.png";
    assert first[1] == 'a' && first[0] == '/';
    assert second[0] == 'c';
    assert !IsResolved(first) && !IsResolved(second);
    assert "cms" + first == second;
    assert "cms" + second == "cmscms/a.png";
  }

  lemma PrefixOfPrefix(p: string, s: string, t: string)
    requires s <= t
    ensures p <= s ==> p <= t
  {
    if p <= s {
      assert t[..|p|] == s[..|p|];
    }
  }

  /** What `StrapiImage` renders. */
  datatype Rendered =
    | Nothing
    | PlainImg(src: string)
    | SizedImage(src: string, width: int, height: int)

  /** A width or height is missing when it is absent or zero (`!width`). */
  predicate Missing(dim: Option<int>) {
    dim.None? || dim.value == 0
  }

  /**
   * `StrapiImage`: nothing when the resolved URL is null or empty, a plain
   * `<img>` when a dimension is missing or zero, the optimising `<Image>`
   * otherwise; both show the resolved URL.
   */
  function RenderImage(base: string, url: Option<string>, width: Option<int>, height: Option<int>): (r: Rendered)
    ensures r.Nothing? <==> url.None? || GetStrapiMedia(base, url) == Some("")
    ensures r.Nothing? ==> (url.Some? ==> url.value == "" && base == "")
    ensures r.PlainImg? <==> !r.Nothing? && (Missing(width) || Missing(height))
    ensures !r.Nothing? ==> Some(r.src) == GetStrapiMedia(base, url)
    ensures r.SizedImage? ==> Some(r.width) == width && Some(r.height) == height
  {
    var imageUrl := GetStrapiMedia(base, url);
    if imageUrl.None? || imageUrl.value == "" then Nothing
    else if Missing(width) || Missing(height) then PlainImg(imageUrl.value)
    else SizedImage(imageUrl.value, width.value, height.value)
  }
}
