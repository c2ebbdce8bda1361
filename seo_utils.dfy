/**
 * The SEO metadata component and the product JSON-LD builder. The component
 * is a pure function of its props and of the `VITE_SITE_URL` build variable:
 * it resolves fallback chains for the title, description, page URL and
 * images, merges the Open Graph and Twitter props over fixed defaults, and
 * emits a list of head tags. Helmet itself is left out; the model stops at
 * the list of tags it would be handed.
 */
module SeoUtils {
  import opened Options
  import opened JsString

  /**
   * A key of an object literal: not written at all, written with the value
   * `undefined`, or written with a value. The spread `{...a, ...b}` tells the
   * first two apart, since an explicit `undefined` in `b` still overrides `a`.
   */
  datatype Field<+T> = Absent | Undefined | Given(value: T)

  /** The value a spread leaves for one key: the later object wins whenever it has the key. */
  function Spread<T>(base: Field<T>, over: Field<T>): (r: Field<T>)
    ensures over.Absent? ==> r == base
    ensures !over.Absent? ==> r == over
  {
    if over.Absent? then base else over
  }

  /** A string-valued key is truthy when it holds a non-empty string. */
  predicate FieldTruthy(f: Field<string>) {
    f.Given? && f.value != ""
  }

  /** `f || fallback` for a string key. */
  function OrElse(f: Field<string>, fallback: string): (r: string)
    ensures FieldTruthy(f) ==> r == f.value
    ensures !FieldTruthy(f) ==> r == fallback
  {
    if FieldTruthy(f) then f.value else fallback
  }

  /** A JavaScript value that is a string or `undefined`; truthy when a non-empty string. */
  predicate Truthy(v: Option<string>) {
    v.Some? && v.value != ""
  }

  datatype ImageRef = ImageRef(url: string)

  datatype OpenGraph = OpenGraph(
    ogType: Field<string>,
    title: Field<string>,
    description: Field<string>,
    url: Field<string>,
    siteName: Field<string>,
    image: Field<string>,
    images: Field<seq<ImageRef>>,
    locale: Field<string>)

  datatype Twitter = Twitter(
    card: Field<string>,
    site: Field<string>,
    creator: Field<string>,
    title: Field<string>,
    description: Field<string>,
    image: Field<string>)

  /** A JSON value, enough for the structured data the site emits. */
  datatype Json = JString(s: string) | JArray(items: seq<Json>) | JObject(members: seq<(string, Json)>)

  /**
   * The component's props. The optional top-level props are `None` when not
   * passed or passed as `undefined` (the component cannot tell these apart);
   * the nested records keep the distinction because they are spread.
   */
  datatype SeoProps = SeoProps(
    title: string,
    description: string,
    canonical: Option<string>,
    openGraph: Option<OpenGraph>,
    twitter: Option<Twitter>,
    jsonLd: Option<Json>,
    noindex: Option<bool>)

  const DefaultTitle := "CraftCode Digital Hub | Soluções Digitais para Negócios com Propósito"
  const DefaultDescription := "Desenvolvemos software robusto, inteligência de dados e soluções inovadoras com excelência técnica para negócios com propósito."
  const DefaultSiteUrl := "https://craftcode.com.br"
  const DefaultOgImage := "/og-image.jpg"

  /** The Open Graph defaults: type `website`, the shared image and the site name. */
  const DefaultOpenGraph := OpenGraph(
    Given("website"), Absent, Absent, Absent, Given("CraftCode"), Given(DefaultOgImage), Absent, Absent)

  /** The Twitter defaults: the large-image card and the two account handles. */
  const DefaultTwitter := Twitter(
    Given("summary_large_image"), Given("@craftcodecorp"), Given("@italocastilho"), Absent, Absent, Absent)

  /** `import.meta.env.VITE_SITE_URL || 'https://craftcode.com.br'`. */
  function SiteUrl(env: Option<string>): (r: string)
    ensures r != ""
    ensures Truthy(env) ==> r == env.value
  {
    if Truthy(env) then env.value else DefaultSiteUrl
  }

  /** A non-empty title gets the brand suffix; an empty one is replaced by the default title. */
  function FullTitle(title: string): (r: string)
    ensures r != ""
    ensures title != "" ==> r == title + " | CraftCode"
    ensures title == "" ==> r == DefaultTitle
  {
    if title != "" then title + " | CraftCode" else DefaultTitle
  }

  function MetaDescription(description: string): (r: string)
    ensures r != ""
    ensures description != "" ==> r == description
  {
    if description != "" then description else DefaultDescription
  }

  /** `openGraph?.url`: undefined when no Open Graph props were passed. */
  function CallerOgUrl(props: SeoProps): Field<string> {
    if props.openGraph.Some? then props.openGraph.value.url else Absent
  }

  /** `canonical || openGraph?.url || siteUrl`. */
  function PageUrl(env: Option<string>, props: SeoProps): (r: string)
  {
    if Truthy(props.canonical) then props.canonical.value
    else OrElse(CallerOgUrl(props), SiteUrl(env))
  }

  /** The page URL is never empty, and it is the first truthy link of the chain. */
  lemma PageUrlChain(env: Option<string>, props: SeoProps)
    ensures PageUrl(env, props) != ""
    ensures Truthy(props.canonical) ==> PageUrl(env, props) == props.canonical.value
    ensures !Truthy(props.canonical) && FieldTruthy(CallerOgUrl(props)) ==>
      PageUrl(env, props) == CallerOgUrl(props).value
    ensures !Truthy(props.canonical) && !FieldTruthy(CallerOgUrl(props)) ==>
      PageUrl(env, props) == SiteUrl(env)
  {
  }

  /** `{...defaultSeo.openGraph, ...openGraph, title, description, url}`. */
  function MergedOpenGraph(env: Option<string>, props: SeoProps): (r: OpenGraph)
    ensures r.title.Given? && r.description.Given? && r.url.Given?
  {
    var over := props.openGraph.GetOr(OpenGraph(Absent, Absent, Absent, Absent, Absent, Absent, Absent, Absent));
    var d := DefaultOpenGraph;
    OpenGraph(
      Spread(d.ogType, over.ogType),
      Given(OrElse(over.title, FullTitle(props.title))),
      Given(OrElse(over.description, MetaDescription(props.description))),
      Given(PageUrl(env, props)),
      Spread(d.siteName, over.siteName),
      Spread(d.image, over.image),
      Spread(d.images, over.images),
      Spread(d.locale, over.locale))
  }

  /** `{...defaultSeo.twitter, ...twitter, title, description}`. */
  function MergedTwitter(props: SeoProps): (r: Twitter)
    ensures r.title.Given? && r.description.Given?
  {
    var over := props.twitter.GetOr(Twitter(Absent, Absent, Absent, Absent, Absent, Absent));
    var d := DefaultTwitter;
    Twitter(
      Spread(d.card, over.card),
      Spread(d.site, over.site),
      Spread(d.creator, over.creator),
      Given(OrElse(over.title, FullTitle(props.title))),
      Given(OrElse(over.description, MetaDescription(props.description))),
      Spread(d.image, over.image))
  }

  /** `og.image || og.images?.[0]?.url`. */
  function OgImage(og: OpenGraph): Option<string> {
    if FieldTruthy(og.image) then Some(og.image.value)
    else if og.images.Given? && |og.images.value| > 0 then Some(og.images.value[0].url)
    else None
  }

  /** `tw.image || ogImage`. */
  function TwImage(tw: Twitter, ogImage: Option<string>): Option<string> {
    if FieldTruthy(tw.image) then Some(tw.image.value) else ogImage
  }

  /** `getAbsoluteUrl`: undefined for a missing or empty path, `http…` kept, anything else put after the site URL. */
  function GetAbsoluteUrl(siteUrl: string, path: Option<string>): (r: Option<string>)
    ensures !Truthy(path) ==> r == None
    ensures Truthy(path) && StartsWith(path.value, "http") ==> r == path
    ensures Truthy(path) && !StartsWith(path.value, "http") ==> r == Some(siteUrl + path.value)
  {
    if !Truthy(path) then None
    else if StartsWith(path.value, "http") then path
    else Some(siteUrl + path.value)
  }

  /** Resolving twice changes nothing when the site URL itself starts with `http`. */
  lemma {:induction false} AbsoluteUrlIdempotent(siteUrl: string, path: Option<string>)
    requires StartsWith(siteUrl, "http")
    ensures GetAbsoluteUrl(siteUrl, GetAbsoluteUrl(siteUrl, path)) == GetAbsoluteUrl(siteUrl, path)
  {
    if Truthy(path) && !StartsWith(path.value, "http") {
      var r := siteUrl + path.value;
      assert r[..4] == siteUrl[..4];
    }
  }

  /** Which head tag a `meta` element is; each has a fixed `name` or `property` attribute. */
  datatype MetaKey =
    | Description
    | OgType | OgTitle | OgDescription | OgUrl | OgSiteName | OgImageKey
    | TwitterCard | TwitterSite | TwitterCreator | TwitterTitle | TwitterDescription | TwitterImageKey
    | Robots

  /** The attribute value that identifies each meta tag. */
  function KeyName(k: MetaKey): string {
    match k
    case Description => "description"
    case OgType => "og:type"
    case OgTitle => "og:title"
    case OgDescription => "og:description"
    case OgUrl => "og:url"
    case OgSiteName => "og:site_name"
    case OgImageKey => "og:image"
    case TwitterCard => "twitter:card"
    case TwitterSite => "twitter:site"
    case TwitterCreator => "twitter:creator"
    case TwitterTitle => "twitter:title"
    case TwitterDescription => "twitter:description"
    case TwitterImageKey => "twitter:image"
    case Robots => "robots"
  }

  /** A head element handed to Helmet. */
  datatype Tag = TitleTag(text: string) | Meta(key: MetaKey, content: string) | CanonicalLink(href: string) | JsonLdScript(data: Json)

  /** `{cond && <tag/>}` for a string key: the tag only when the value is truthy. */
  function MetaIf(k: MetaKey, f: Field<string>): (r: seq<Tag>)
    ensures FieldTruthy(f) ==> r == [Meta(k, f.value)]
    ensures !FieldTruthy(f) ==> r == []
  {
    if FieldTruthy(f) then [Meta(k, f.value)] else []
  }

  function BasicTags(props: SeoProps): seq<Tag> {
    [TitleTag(FullTitle(props.title)), Meta(Description, MetaDescription(props.description))] +
    (if Truthy(props.canonical) then [CanonicalLink(props.canonical.value)] else [])
  }

  function OgTags(env: Option<string>, props: SeoProps): seq<Tag> {
    var og := MergedOpenGraph(env, props);
    var image := OgImage(og);
    MetaIf(OgType, og.ogType) +
    [Meta(OgTitle, OrElse(og.title, FullTitle(props.title))),
     Meta(OgDescription, OrElse(og.description, MetaDescription(props.description))),
     Meta(OgUrl, og.url.value)] +
    MetaIf(OgSiteName, og.siteName) +
    (if Truthy(image) then [Meta(OgImageKey, GetAbsoluteUrl(SiteUrl(env), image).value)] else [])
  }

  function TwitterTags(env: Option<string>, props: SeoProps): seq<Tag> {
    var tw := MergedTwitter(props);
    var image := TwImage(tw, OgImage(MergedOpenGraph(env, props)));
    MetaIf(TwitterCard, tw.card) + MetaIf(TwitterSite, tw.site) + MetaIf(TwitterCreator, tw.creator) +
    [Meta(TwitterTitle, OrElse(tw.title, FullTitle(props.title))),
     Meta(TwitterDescription, OrElse(tw.description, MetaDescription(props.description)))] +
    (if Truthy(image) then [Meta(TwitterImageKey, GetAbsoluteUrl(SiteUrl(env), image).value)] else [])
  }

  /** `noindex = false` in the destructuring: only an explicit `true` asks for the robots tag. */
  function Noindex(props: SeoProps): bool {
    props.noindex.GetOr(false)
  }

  function TrailingTags(props: SeoProps): seq<Tag> {
    (if Noindex(props) then [Meta(Robots, "noindex, nofollow")] else []) +
    (if props.jsonLd.Some? then [JsonLdScript(props.jsonLd.value)] else [])
  }

  /** The head tags of `SEO`, in the order the component writes them. */
  function SeoTags(env: Option<string>, props: SeoProps): seq<Tag> {
    BasicTags(props) + OgTags(env, props) + TwitterTags(env, props) + TrailingTags(props)
  }

  /** Whether some tag of `tags` is a meta tag with key `k`. */
  predicate HasMeta(tags: seq<Tag>, k: MetaKey) {
    exists i :: 0 <= i < |tags| && tags[i].Meta? && tags[i].key == k
  }

  /** The document title comes first and is the resolved full title. */
  lemma TitleFirst(env: Option<string>, props: SeoProps)
    ensures SeoTags(env, props)[0] == TitleTag(FullTitle(props.title))
  {
  }

  /** A meta key occurs in a concatenation exactly when it occurs in one of the parts. */
  lemma HasMetaConcat(a: seq<Tag>, b: seq<Tag>, k: MetaKey)
    ensures HasMeta(a + b, k) <==> HasMeta(a, k) || HasMeta(b, k)
  {
    if HasMeta(a + b, k) {
      var i :| 0 <= i < |a + b| && (a + b)[i].Meta? && (a + b)[i].key == k;
      if i >= |a| {
        assert b[i - |a|] == (a + b)[i];
      }
    }
    if HasMeta(a, k) {
      var i :| 0 <= i < |a| && a[i].Meta? && a[i].key == k;
      assert (a + b)[i] == a[i];
    }
    if HasMeta(b, k) {
      var i :| 0 <= i < |b| && b[i].Meta? && b[i].key == k;
      assert (a + b)[|a| + i] == b[i];
    }
  }

  /** The robots tag is emitted exactly when `noindex` is passed as true. */
  lemma RobotsIff(env: Option<string>, props: SeoProps)
    ensures HasMeta(SeoTags(env, props), Robots) <==> props.noindex == Some(true)
  {
    var basic, og, tw, trailing := BasicTags(props), OgTags(env, props), TwitterTags(env, props), TrailingTags(props);
    assert SeoTags(env, props) == ((basic + og) + tw) + trailing;
    NoRobotsInBasic(props);
    NoRobotsInOg(env, props);
    NoRobotsInTwitter(env, props);
    HasMetaConcat(basic, og, Robots);
    HasMetaConcat(basic + og, tw, Robots);
    HasMetaConcat((basic + og) + tw, trailing, Robots);
    RobotsInTrailing(props);
  }

  lemma NoRobotsInBasic(props: SeoProps)
    ensures !HasMeta(BasicTags(props), Robots)
  {
  }

  /** Tags that are all social meta tags: no robots tag, no link, no script. */
  predicate SocialMeta(tags: seq<Tag>) {
    forall t :: t in tags ==> t.Meta? && t.key != Robots
  }

  lemma SocialConcat(a: seq<Tag>, b: seq<Tag>)
    requires SocialMeta(a) && SocialMeta(b)
    ensures SocialMeta(a + b)
  {
  }

  lemma SocialMetaIf(k: MetaKey, f: Field<string>)
    requires k != Robots
    ensures SocialMeta(MetaIf(k, f))
  {
  }

  lemma SocialNoRobots(tags: seq<Tag>)
    requires SocialMeta(tags)
    ensures !HasMeta(tags, Robots)
    ensures forall t :: t in tags ==> !t.CanonicalLink? && !t.JsonLdScript?
  {
    forall i | 0 <= i < |tags|
      ensures !(tags[i].Meta? && tags[i].key == Robots)
    {
      assert tags[i] in tags;
    }
  }

  lemma OgSocial(env: Option<string>, props: SeoProps)
    ensures SocialMeta(OgTags(env, props))
  {
    var og := MergedOpenGraph(env, props);
    var image := OgImage(og);
    var a := MetaIf(OgType, og.ogType);
    var b := [Meta(OgTitle, OrElse(og.title, FullTitle(props.title))),
      Meta(OgDescription, OrElse(og.description, MetaDescription(props.description))),
      Meta(OgUrl, og.url.value)];
    var c := MetaIf(OgSiteName, og.siteName);
    var d := if Truthy(image) then [Meta(OgImageKey, GetAbsoluteUrl(SiteUrl(env), image).value)] else [];
    assert OgTags(env, props) == a + b + c + d;
    SocialMetaIf(OgType, og.ogType);
    SocialMetaIf(OgSiteName, og.siteName);
    assert SocialMeta(b);
    assert SocialMeta(d);
    SocialConcat(a, b);
    SocialConcat(a + b, c);
    SocialConcat(a + b + c, d);
  }

  lemma TwitterSocial(env: Option<string>, props: SeoProps)
    ensures SocialMeta(TwitterTags(env, props))
  {
    var tw := MergedTwitter(props);
    var image := TwImage(tw, OgImage(MergedOpenGraph(env, props)));
    var a := MetaIf(TwitterCard, tw.card);
    var b := MetaIf(TwitterSite, tw.site);
    var c := MetaIf(TwitterCreator, tw.creator);
    var d := [Meta(TwitterTitle, OrElse(tw.title, FullTitle(props.title))),
      Meta(TwitterDescription, OrElse(tw.description, MetaDescription(props.description)))];
    var e := if Truthy(image) then [Meta(TwitterImageKey, GetAbsoluteUrl(SiteUrl(env), image).value)] else [];
    assert TwitterTags(env, props) == a + b + c + d + e;
    SocialMetaIf(TwitterCard, tw.card);
    SocialMetaIf(TwitterSite, tw.site);
    SocialMetaIf(TwitterCreator, tw.creator);
    assert SocialMeta(d);
    assert SocialMeta(e);
    SocialConcat(a, b);
    SocialConcat(a + b, c);
    SocialConcat(a + b + c, d);
    SocialConcat(a + b + c + d, e);
  }

  lemma NoRobotsInOg(env: Option<string>, props: SeoProps)
    ensures !HasMeta(OgTags(env, props), Robots)
  {
    OgSocial(env, props);
    SocialNoRobots(OgTags(env, props));
  }

  lemma NoRobotsInTwitter(env: Option<string>, props: SeoProps)
    ensures !HasMeta(TwitterTags(env, props), Robots)
  {
    TwitterSocial(env, props);
    SocialNoRobots(TwitterTags(env, props));
  }

  lemma RobotsInTrailing(props: SeoProps)
    ensures HasMeta(TrailingTags(props), Robots) <==> props.noindex == Some(true)
  {
    if Noindex(props) {
      assert TrailingTags(props)[0] == Meta(Robots, "noindex, nofollow");
    }
  }

  /** A page that passes no `noindex` (as the not-found page does, by spelling it `noIndex`) is indexable. */
  lemma MissingNoindexIndexable(env: Option<string>, props: SeoProps)
    requires props.noindex == None
    ensures !HasMeta(SeoTags(env, props), Robots)
  {
    RobotsIff(env, props);
  }

  /** The canonical link appears exactly when a non-empty `canonical` is passed, pointing at it. */
  lemma CanonicalIff(env: Option<string>, props: SeoProps)
    ensures (exists t :: t in SeoTags(env, props) && t.CanonicalLink?) <==> Truthy(props.canonical)
    ensures forall t :: t in SeoTags(env, props) && t.CanonicalLink? ==> t == CanonicalLink(props.canonical.value)
  {
    NoCanonicalAfter(env, props);
    CanonicalInBasic(props);
    CanonicalOfConcat(BasicTags(props), OgTags(env, props), TwitterTags(env, props), TrailingTags(props), SeoTags(env, props));
  }

  /** Only the first part can hold a canonical link when the later parts hold none. */
  lemma CanonicalOfConcat(a: seq<Tag>, b: seq<Tag>, c: seq<Tag>, d: seq<Tag>, tags: seq<Tag>)
    requires tags == a + b + c + d
    requires forall t :: t in b ==> !t.CanonicalLink?
    requires forall t :: t in c ==> !t.CanonicalLink?
    requires forall t :: t in d ==> !t.CanonicalLink?
    ensures (exists t :: t in tags && t.CanonicalLink?) <==> (exists t :: t in a && t.CanonicalLink?)
    ensures forall t :: t in tags && t.CanonicalLink? ==> t in a
  {
    if exists t :: t in a && t.CanonicalLink? {
      var t :| t in a && t.CanonicalLink?;
      assert t in tags;
    }
  }

  lemma CanonicalInBasic(props: SeoProps)
    ensures (exists t :: t in BasicTags(props) && t.CanonicalLink?) <==> Truthy(props.canonical)
    ensures forall t :: t in BasicTags(props) && t.CanonicalLink? ==> t == CanonicalLink(props.canonical.value)
  {
    if Truthy(props.canonical) {
      assert BasicTags(props)[2] == CanonicalLink(props.canonical.value);
    }
  }

  lemma NoCanonicalAfter(env: Option<string>, props: SeoProps)
    ensures forall t :: t in OgTags(env, props) ==> !t.CanonicalLink?
    ensures forall t :: t in TwitterTags(env, props) ==> !t.CanonicalLink?
    ensures forall t :: t in TrailingTags(props) ==> !t.CanonicalLink?
  {
    OgSocial(env, props);
    SocialNoRobots(OgTags(env, props));
    TwitterSocial(env, props);
    SocialNoRobots(TwitterTags(env, props));
  }

  /** The JSON-LD script appears exactly when `jsonLd` is passed, holding that data. */
  lemma JsonLdIff(env: Option<string>, props: SeoProps)
    ensures (exists t :: t in SeoTags(env, props) && t.JsonLdScript?) <==> props.jsonLd.Some?
    ensures props.jsonLd.Some? ==> SeoTags(env, props)[|SeoTags(env, props)| - 1] == JsonLdScript(props.jsonLd.value)
  {
    var tags := SeoTags(env, props);
    var front := BasicTags(props) + OgTags(env, props) + TwitterTags(env, props);
    assert tags == front + TrailingTags(props);
    NoJsonLdBefore(env, props);
    if props.jsonLd.Some? {
      assert tags[|tags| - 1] in tags;
    }
  }

  lemma NoJsonLdBefore(env: Option<string>, props: SeoProps)
    ensures forall t :: t in BasicTags(props) + OgTags(env, props) + TwitterTags(env, props) ==> !t.JsonLdScript?
  {
    NoJsonLdInOg(env, props);
    NoJsonLdInTwitter(env, props);
  }

  lemma NoJsonLdInOg(env: Option<string>, props: SeoProps)
    ensures forall t :: t in OgTags(env, props) ==> !t.JsonLdScript?
  {
    OgSocial(env, props);
    SocialNoRobots(OgTags(env, props));
  }

  lemma NoJsonLdInTwitter(env: Option<string>, props: SeoProps)
    ensures forall t :: t in TwitterTags(env, props) ==> !t.JsonLdScript?
  {
    TwitterSocial(env, props);
    SocialNoRobots(TwitterTags(env, props));
  }

  /** `og:url` is always emitted and always carries the page URL. */
  lemma OgUrlIsPageUrl(env: Option<string>, props: SeoProps)
    ensures Meta(OgUrl, PageUrl(env, props)) in SeoTags(env, props)
    ensures MergedOpenGraph(env, props).url == Given(PageUrl(env, props))
  {
    var tags := SeoTags(env, props);
    var og := OgTags(env, props);
    var k := |MetaIf(OgType, MergedOpenGraph(env, props).ogType)| + 2;
    assert og[k] == Meta(OgUrl, PageUrl(env, props));
    assert tags == BasicTags(props) + og + (TwitterTags(env, props) + TrailingTags(props));
    assert tags[|BasicTags(props)| + k] == og[k];
  }

  /** The Open Graph and Twitter titles and descriptions fall back to the page's own. */
  lemma SocialTextFallbacks(env: Option<string>, props: SeoProps)
    ensures var og := MergedOpenGraph(env, props);
      og.title.value != "" && og.description.value != "" &&
      (props.openGraph.None? ==> og.title.value == FullTitle(props.title) && og.description.value == MetaDescription(props.description))
    ensures var tw := MergedTwitter(props);
      tw.title.value != "" && tw.description.value != "" &&
      (props.twitter.None? ==> tw.title.value == FullTitle(props.title) && tw.description.value == MetaDescription(props.description))
  {
  }

  /** Unless the caller writes the `image` key, the default image is the Open Graph image. */
  lemma DefaultOgImageKept(env: Option<string>, props: SeoProps)
    requires props.openGraph.None? || props.openGraph.value.image.Absent?
    ensures OgImage(MergedOpenGraph(env, props)) == Some(DefaultOgImage)
  {
  }

  /** The Twitter image falls back to the Open Graph image. */
  lemma TwitterImageFallsBack(env: Option<string>, props: SeoProps)
    requires props.twitter.None? || !FieldTruthy(props.twitter.value.image)
    ensures TwImage(MergedTwitter(props), OgImage(MergedOpenGraph(env, props))) == OgImage(MergedOpenGraph(env, props))
  {
  }

  /** With the defaults in place, both image tags hold the site URL followed by the default image path. */
  lemma DefaultImageTags(env: Option<string>, props: SeoProps)
    requires props.openGraph.None? && props.twitter.None?
    ensures Meta(OgImageKey, SiteUrl(env) + DefaultOgImage) in SeoTags(env, props)
    ensures Meta(TwitterImageKey, SiteUrl(env) + DefaultOgImage) in SeoTags(env, props)
  {
    DefaultOgImageKept(env, props);
    assert !StartsWith(DefaultOgImage, "http") by {
      assert DefaultOgImage[0] == '/';
    }
    var tags := SeoTags(env, props);
    var ogt := OgTags(env, props);
    var twt := TwitterTags(env, props);
    assert ogt[|ogt| - 1] == Meta(OgImageKey, SiteUrl(env) + DefaultOgImage);
    assert twt[|twt| - 1] == Meta(TwitterImageKey, SiteUrl(env) + DefaultOgImage);
    assert tags == BasicTags(props) + ogt + twt + TrailingTags(props);
    assert tags[|BasicTags(props)| + |ogt| - 1] == ogt[|ogt| - 1];
    assert tags[|BasicTags(props)| + |ogt| + |twt| - 1] == twt[|twt| - 1];
  }

  /** The product passed to `generateProductJsonLd`; the optional keys are `None` when missing. */
  datatype Product = Product(
    name: string,
    description: string,
    image: string,
    price: Option<string>,
    priceCurrency: Option<string>,
    availability: Option<string>,
    url: Option<string>)

  /** `value || fallback` for an optional string. */
  function OptOr(v: Option<string>, fallback: string): (r: string)
    ensures Truthy(v) ==> r == v.value
    ensures !Truthy(v) ==> r == fallback
  {
    if Truthy(v) then v.value else fallback
  }

  function Offer(product: Product): Json
    requires Truthy(product.price)
  {
    JObject([
      ("@type", JString("Offer")),
      ("price", JString(product.price.value)),
      ("priceCurrency", JString(OptOr(product.priceCurrency, "BRL"))),
      ("availability", JString("https://schema.org/" + OptOr(product.availability, "InStock"))),
      ("url", JString(OptOr(product.url, DefaultSiteUrl)))])
  }

  /** Property access on an object's members: the value of the first member under `key`, if any. */
  function Member(ms: seq<(string, Json)>, key: string): Option<Json> {
    if ms == [] then None
    else if ms[0].0 == key then Some(ms[0].1)
    else Member(ms[1..], key)
  }

  /** A lookup finds nothing exactly when no member has the key, and what it finds is a member's value. */
  lemma {:induction false} MemberSpec(ms: seq<(string, Json)>, key: string)
    ensures Member(ms, key).None? <==> forall k :: 0 <= k < |ms| ==> ms[k].0 != key
    ensures Member(ms, key).Some? ==> exists k :: 0 <= k < |ms| && ms[k] == (key, Member(ms, key).value)
    decreases |ms|
  {
    if ms != [] && ms[0].0 != key {
      MemberSpec(ms[1..], key);
      assert forall k :: 1 <= k < |ms| ==> ms[k] == ms[1..][k - 1];
      if Member(ms[1..], key).Some? {
        var k :| 0 <= k < |ms[1..]| && ms[1..][k] == (key, Member(ms[1..], key).value);
        assert ms[k + 1] == ms[1..][k];
      }
    }
  }

  /** `generateProductJsonLd`: the Product object, with an `offers` member only for a truthy price. */
  function GenerateProductJsonLd(product: Product): (r: Json)
    ensures r.JObject?
    ensures Member(r.members, "@context") == Some(JString("https://schema.org"))
    ensures Member(r.members, "@type") == Some(JString("Product"))
    ensures Member(r.members, "name") == Some(JString(product.name))
    ensures Member(r.members, "description") == Some(JString(product.description))
    ensures Member(r.members, "image") == Some(JString(product.image))
    ensures Member(r.members, "offers") == if Truthy(product.price) then Some(Offer(product)) else None
  {
    var head := [
      ("@context", JString("https://schema.org")),
      ("@type", JString("Product")),
      ("name", JString(product.name)),
      ("description", JString(product.description)),
      ("image", JString(product.image))];
    var tail := if Truthy(product.price) then [("offers", Offer(product))] else [];
    HeadMembers(head, tail, product);
    JObject(head + tail)
  }

  /** The first member under `key` decides the lookup. */
  lemma {:induction false} MemberAt(ms: seq<(string, Json)>, i: nat, key: string)
    requires i < |ms| && ms[i].0 == key
    requires forall j :: 0 <= j < i ==> ms[j].0 != key
    ensures Member(ms, key) == Some(ms[i].1)
    decreases i
  {
    if i > 0 {
      assert forall j :: 0 <= j < i - 1 ==> ms[1..][j] == ms[j + 1];
      MemberAt(ms[1..], i - 1, key);
    }
  }

  /** The six keys of the Product object differ pairwise. */
  lemma ProductKeysDistinct()
    ensures "@type" != "@context"
    ensures "name" != "@context" && "name" != "@type"
    ensures "description" != "@context" && "description" != "@type" && "description" != "name"
    ensures "image" != "@context" && "image" != "@type" && "image" != "name" && "image" != "description"
    ensures "offers" != "@context" && "offers" != "@type" && "offers" != "name"
    ensures "offers" != "description" && "offers" != "image"
  {
    assert "@type"[1] != "@context"[1];
    assert "name"[0] != "@context"[0] && "name"[0] != "@type"[0];
    assert "description"[0] != "@context"[0] && "description"[0] != "@type"[0] && "description"[0] != "name"[0];
    assert "image"[0] != "@context"[0] && "image"[0] != "@type"[0] && "image"[0] != "name"[0] && "image"[0] != "description"[0];
    assert "offers"[0] != "@context"[0] && "offers"[0] != "@type"[0] && "offers"[0] != "name"[0];
    assert "offers"[0] != "description"[0] && "offers"[0] != "image"[0];
  }

  /** Members that start with the five fixed ones yield those five on lookup, whatever follows. */
  lemma FixedMembers(ms: seq<(string, Json)>, product: Product)
    requires |ms| >= 5
    requires ms[0] == ("@context", JString("https://schema.org")) && ms[1] == ("@type", JString("Product"))
    requires ms[2] == ("name", JString(product.name)) && ms[3] == ("description", JString(product.description))
    requires ms[4] == ("image", JString(product.image))
    ensures Member(ms, "@context") == Some(JString("https://schema.org"))
    ensures Member(ms, "@type") == Some(JString("Product"))
    ensures Member(ms, "name") == Some(JString(product.name))
    ensures Member(ms, "description") == Some(JString(product.description))
    ensures Member(ms, "image") == Some(JString(product.image))
  {
    ProductKeysDistinct();
    MemberAt(ms, 0, "@context");
    MemberAt(ms, 1, "@type");
    MemberAt(ms, 2, "name");
    MemberAt(ms, 3, "description");
    MemberAt(ms, 4, "image");
  }

  /** The five fixed members come first, so `offers` can only come from the tail. */
  lemma HeadMembers(head: seq<(string, Json)>, tail: seq<(string, Json)>, product: Product)
    requires head == [
      ("@context", JString("https://schema.org")),
      ("@type", JString("Product")),
      ("name", JString(product.name)),
      ("description", JString(product.description)),
      ("image", JString(product.image))]
    requires tail == if Truthy(product.price) then [("offers", Offer(product))] else []
    ensures Member(head + tail, "@context") == Some(JString("https://schema.org"))
    ensures Member(head + tail, "@type") == Some(JString("Product"))
    ensures Member(head + tail, "name") == Some(JString(product.name))
    ensures Member(head + tail, "description") == Some(JString(product.description))
    ensures Member(head + tail, "image") == Some(JString(product.image))
    ensures Member(head + tail, "offers") == if Truthy(product.price) then Some(Offer(product)) else None
  {
    var ms := head + tail;
    assert ms[0] == head[0] && ms[1] == head[1] && ms[2] == head[2] && ms[3] == head[3] && ms[4] == head[4];
    assert Truthy(product.price) ==> ms[5] == tail[0];
    FixedMembers(ms, product);
    OffersMember(ms, product);
  }

  /** With the fixed members first, `offers` is found exactly when a sixth member carries it. */
  lemma OffersMember(ms: seq<(string, Json)>, product: Product)
    requires |ms| == if Truthy(product.price) then 6 else 5
    requires ms[0].0 == "@context" && ms[1].0 == "@type" && ms[2].0 == "name"
    requires ms[3].0 == "description" && ms[4].0 == "image"
    requires Truthy(product.price) ==> ms[5] == ("offers", Offer(product))
    ensures Member(ms, "offers") == if Truthy(product.price) then Some(Offer(product)) else None
  {
    ProductKeysDistinct();
    if Truthy(product.price) {
      MemberAt(ms, 5, "offers");
    } else {
      assert forall k :: 0 <= k < |ms| ==> ms[k].0 != "offers";
      MemberSpec(ms, "offers");
    }
  }

  /**
   * The offer is present exactly when the price is a non-empty string, as the last
   * member; the five members before it are always the same.
   */
  lemma ProductOffersIff(product: Product)
    ensures var ms := GenerateProductJsonLd(product).members;
      (exists k :: 0 <= k < |ms| && ms[k].0 == "offers") <==> Truthy(product.price)
    ensures |GenerateProductJsonLd(product).members| == if Truthy(product.price) then 6 else 5
    ensures Truthy(product.price) ==>
      GenerateProductJsonLd(product).members[5] == ("offers", Offer(product))
    ensures GenerateProductJsonLd(product).members[..5] == [
      ("@context", JString("https://schema.org")),
      ("@type", JString("Product")),
      ("name", JString(product.name)),
      ("description", JString(product.description)),
      ("image", JString(product.image))]
  {
    var ms := GenerateProductJsonLd(product).members;
    MemberSpec(ms, "offers");
  }

  /** The offer's defaults: Brazilian reais, in stock, and the company site. */
  lemma OfferDefaults(product: Product)
    requires Truthy(product.price)
    requires product.priceCurrency == None && product.availability == None && product.url == None
    ensures Offer(product) == JObject([
      ("@type", JString("Offer")),
      ("price", JString(product.price.value)),
      ("priceCurrency", JString("BRL")),
      ("availability", JString("https://schema.org/InStock")),
      ("url", JString("https://craftcode.com.br"))])
  {
    assert "https://schema.org/" + "InStock" == "https://schema.org/InStock";
  }
}
