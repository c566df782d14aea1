/**
 * The strings the page-head component derives from its properties (src/components/SEO.tsx):
 * the document title, the canonical URL, the absolute share image and the keywords line.
 */
module Seo {
  import opened Wrappers
  import Text

  const SiteUrl := "https://portfolio-mct.netlify.app"
  const DefaultTitle := "Portfolio | Software Developer"
  const TitleSuffix := " | Portfolio"
  const DefaultOgImage := "/images/og/default.png"
  const DefaultKeywords: seq<string> :=
    ["software developer", "web development", "full-stack", "portfolio", "react", "next.js", "django", "python"]

  /** The properties the derivations read; a missing title, image or keyword list takes its
      default. */
  datatype SeoProps = SeoProps(
    title: Option<string>,
    keywords: Option<seq<string>>,
    ogImage: Option<string>,
    canonicalUrl: Option<string>)

  /** `fullTitle`: a title that already names the site (it holds a `|`) is kept; any other
      gets the site suffix. */
  function FullTitle(props: SeoProps): (r: string)
    ensures Text.Contains(props.title.GetOr(DefaultTitle), "|") ==> r == props.title.GetOr(DefaultTitle)
    ensures !Text.Contains(props.title.GetOr(DefaultTitle), "|") ==>
              r == props.title.GetOr(DefaultTitle) + TitleSuffix
  {
    var title := props.title.GetOr(DefaultTitle);
    if Text.Contains(title, "|") then title else title + TitleSuffix
  }

  /** Every full title holds a `|`, so deriving a title from a full title changes nothing. */
  lemma FullTitleIdempotent(props: SeoProps)
    ensures Text.Contains(FullTitle(props), "|")
    ensures FullTitle(props.(title := Some(FullTitle(props)))) == FullTitle(props)
  {
    var title := props.title.GetOr(DefaultTitle);
    if !Text.Contains(title, "|") {
      var r := title + TitleSuffix;
      Text.ContainsIffOccurs(r, "|");
      assert "|" <= r[|title| + 1..];
    }
  }

  /** Without a title the page is titled exactly with the default. */
  lemma DefaultFullTitle(props: SeoProps)
    requires props.title.None?
    ensures FullTitle(props) == "Portfolio | Software Developer"
  {
    var title := DefaultTitle;
    assert title[10] == '|';
    assert "|" <= title[10..];
    Text.ContainsIffOccurs(title, "|");
  }

  /** `fullCanonicalUrl`: the given URL when non-empty, else the site URL. */
  function CanonicalUrl(props: SeoProps): (r: string)
    ensures r != ""
    ensures props.canonicalUrl.Some? && props.canonicalUrl.value != "" ==> r == props.canonicalUrl.value
    ensures props.canonicalUrl.None? || props.canonicalUrl == Some("") ==> r == SiteUrl
  {
    match props.canonicalUrl
    case Some(url) => if url != "" then url else SiteUrl
    case None => SiteUrl
  }

  /** `fullOgImage`: an image whose address starts with `http` is kept; any other is taken
      relative to the site. */
  function OgImageUrl(props: SeoProps): (r: string)
    ensures "http" <= props.ogImage.GetOr(DefaultOgImage) ==> r == props.ogImage.GetOr(DefaultOgImage)
    ensures !("http" <= props.ogImage.GetOr(DefaultOgImage)) ==> r == SiteUrl + props.ogImage.GetOr(DefaultOgImage)
  {
    var image := props.ogImage.GetOr(DefaultOgImage);
    if "http" <= image then image else SiteUrl + image
  }

  /** The share image is always absolute, and deriving it from its own result changes nothing. */
  lemma OgImageIsAbsolute(props: SeoProps)
    ensures "http" <= OgImageUrl(props)
    ensures OgImageUrl(props.(ogImage := Some(OgImageUrl(props)))) == OgImageUrl(props)
  {
    var image := props.ogImage.GetOr(DefaultOgImage);
    if !("http" <= image) {
      assert (SiteUrl + image)[..4] == SiteUrl[..4];
    }
  }

  /** Without an image the site's default card is used. */
  lemma DefaultOgImageUrl(props: SeoProps)
    requires props.ogImage.None?
    ensures OgImageUrl(props) == "https://portfolio-mct.netlify.app/images/og/default.png"
  {
    assert !("http" <= DefaultOgImage) by {
      assert DefaultOgImage[0] == '/';
    }
    assert OgImageUrl(props) == SiteUrl + DefaultOgImage;
    DefaultCardAddress();
  }

  lemma DefaultCardAddress()
    ensures SiteUrl + DefaultOgImage == "https://portfolio-mct.netlify.app/images/og/default.png"
  {
  }

  /** The keywords meta content: the keywords joined with `", "`. */
  function KeywordsContent(props: SeoProps): (r: string)
  {
    Text.Join(props.keywords.GetOr(DefaultKeywords), ", ")
  }

  /** The keywords line splits back into the keywords when none of them holds a comma. */
  lemma KeywordsRoundTrip(props: SeoProps)
    requires |props.keywords.GetOr(DefaultKeywords)| >= 1
    requires forall i | 0 <= i < |props.keywords.GetOr(DefaultKeywords)| :: ',' !in props.keywords.GetOr(DefaultKeywords)[i]
    ensures Text.Split(KeywordsContent(props), ',') ==
              [props.keywords.GetOr(DefaultKeywords)[0]] +
              seq(|props.keywords.GetOr(DefaultKeywords)| - 1,
                  i requires 0 <= i < |props.keywords.GetOr(DefaultKeywords)| - 1 => " " + props.keywords.GetOr(DefaultKeywords)[i + 1])
  {
    var ks := props.keywords.GetOr(DefaultKeywords);
    var parts := [ks[0]] + seq(|ks| - 1, i requires 0 <= i < |ks| - 1 => " " + ks[i + 1]);
    JoinCommaSpace(ks);
    Text.SplitJoin(parts, ',');
  }

  /** Joining with `", "` is joining with `","` after putting a space before every part but
      the first. */
  lemma {:induction false} JoinCommaSpace(ks: seq<string>)
    requires |ks| >= 1
    ensures Text.Join(ks, ", ") ==
              Text.Join([ks[0]] + seq(|ks| - 1, i requires 0 <= i < |ks| - 1 => " " + ks[i + 1]), [','])
    decreases |ks|
  {
    var parts := [ks[0]] + seq(|ks| - 1, i requires 0 <= i < |ks| - 1 => " " + ks[i + 1]);
    if |ks| >= 2 {
      var tail := ks[1..];
      JoinCommaSpace(tail);
      var tailParts := [tail[0]] + seq(|tail| - 1, i requires 0 <= i < |tail| - 1 => " " + tail[i + 1]);
      var spaced := [" " + tail[0]] + tailParts[1..];
      assert parts[1..] == spaced;
      assert Text.Join(spaced, [',']) == " " + Text.Join(tailParts, [',']) by {
        JoinPrefixFirst(tailParts, " ");
        assert spaced == [" " + tailParts[0]] + tailParts[1..];
      }
    }
  }

  /** Prefixing the first part prefixes the join. */
  lemma {:induction false} JoinPrefixFirst(parts: seq<string>, p: string)
    requires |parts| >= 1
    ensures Text.Join([p + parts[0]] + parts[1..], [',']) == p + Text.Join(parts, [','])
  {
    var q := [p + parts[0]] + parts[1..];
    if |parts| == 1 {
      assert q == [p + parts[0]];
    } else {
      assert q[1..] == parts[1..];
      assert Text.Join(q, [',']) == q[0] + [','] + Text.Join(parts[1..], [',']);
      assert Text.Join(parts, [',']) == parts[0] + [','] + Text.Join(parts[1..], [',']);
      assert (p + parts[0]) + [','] + Text.Join(parts[1..], [',']) == p + (parts[0] + [','] + Text.Join(parts[1..], [',']));
    }
  }
}
