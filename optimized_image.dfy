/**
 * The `OptimizedImage` component: which sources a `<picture>` renders (the
 * WebP `<source>`, the `<img>` source and a responsive srcset), the
 * fallback taken after a load error, the two state flags flipped by the
 * load and error handlers, and the size style of the wrapper.
 */
module OptimizedImage {
  import opened Options
  import opened JsString

  /** One `url <n>w` entry of a srcset. */
  datatype Candidate = Candidate(url: string, width: nat)

  /** The three variants of the srcset template, in its order. */
  const Variants: seq<(string, nat)> := [("_w_480", 480), ("_w_800", 800), ("_w_1200", 1200)]

  /**
   * `substring(0, lastIndexOf('.'))` and `substring(lastIndexOf('.'))`:
   * without a '.', the base is empty and the "extension" is the whole source.
   */
  function SplitAtLastDot(src: string): (r: (string, string))
    ensures r.0 + r.1 == src
    ensures '.' in src ==> r.1 != "" && r.1[0] == '.' && '.' !in r.1[1..]
    ensures '.' !in src ==> r.0 == ""
  {
    var k := LastIndexOf(src, '.');
    if k < 0 then ("", src)
    else
      LastIndexOfIsLast(src, '.');
      assert src[k..][1..] == src[k + 1..];
      (src[..k], src[k..])
  }

  /** The file names that `generateSrcSet` treats as responsive. */
  predicate IsResponsive(src: string) {
    Includes(src, "_w_") || Includes(src, "_c_scale")
  }

  /** `generateSrcSet`: the three width variants of a responsive source, otherwise none. */
  function GenerateSrcSet(src: string): (r: Option<seq<Candidate>>)
    ensures r.Some? <==> IsResponsive(src)
    ensures r.Some? ==> |r.value| == |Variants|
    ensures r.Some? ==> forall i :: 0 <= i < |Variants| ==>
      r.value[i] == Candidate(SplitAtLastDot(src).0 + Variants[i].0 + SplitAtLastDot(src).1, Variants[i].1)
  {
    if IsResponsive(src) then
      var parts := SplitAtLastDot(src);
      Some(seq(|Variants|, i requires 0 <= i < |Variants| =>
        Candidate(parts.0 + Variants[i].0 + parts.1, Variants[i].1)))
    else None
  }

  /** The srcset widths are 480, 800 and 1200, in that order. */
  lemma SrcSetWidthsAscend(src: string)
    requires IsResponsive(src)
    ensures var c := GenerateSrcSet(src).value;
            |c| == 3 && c[0].width == 480 && c[1].width == 800 && c[2].width == 1200
  {
  }

  /** A string is truthy in JavaScript when it is given and not empty. */
  predicate Truthy(s: Option<string>) {
    s.Some? && s.value != ""
  }

  /** A number is truthy when it is given and not zero. */
  predicate NonZero(n: Option<int>) {
    n.Some? && n.value != 0
  }

  /**
   * The props. `restOnError` and `restSrcSet` are the two keys of the `...props`
   * rest object that the `<img>` spreads after its own `onError` and `srcSet`:
   * `restSrcSet` is `None` when the key is absent and `Some(None)` when it is
   * written as `undefined`.
   */
  datatype ImageProps = ImageProps(
    src: string,
    webpSrc: Option<string>,
    fallbackSrc: Option<string>,
    width: Option<int>,
    height: Option<int>,
    hasOnLoad: bool,
    restOnError: bool,
    restSrcSet: Option<Option<string>>)

  /** The component's `isLoaded` and `error` state, with counts of `onLoad` and caller `onError` calls. */
  datatype ImageState = ImageState(isLoaded: bool, error: bool, onLoadCalls: nat, onErrorCalls: nat)

  const Initial := ImageState(false, false, 0, 0)

  datatype ImageEvent = LoadEvent | ErrorEvent

  /**
   * `handleLoad`, and the `<img>`'s error handler: `handleError`, unless the
   * caller's `onError` in the rest props replaced it.
   */
  function ImageStep(p: ImageProps, s: ImageState, e: ImageEvent): ImageState {
    match e
    case LoadEvent => s.(isLoaded := true, onLoadCalls := s.onLoadCalls + (if p.hasOnLoad then 1 else 0))
    case ErrorEvent => if p.restOnError then s.(onErrorCalls := s.onErrorCalls + 1) else s.(error := true)
  }

  function RunImage(p: ImageProps, s: ImageState, es: seq<ImageEvent>): ImageState
    decreases |es|
  {
    if es == [] then s else RunImage(p, ImageStep(p, s, es[0]), es[1..])
  }

  function Count(es: seq<ImageEvent>, e: ImageEvent): nat {
    if es == [] then 0 else (if es[0] == e then 1 else 0) + Count(es[1..], e)
  }

  /**
   * From any state, the flags only go from false to true: after a run each is
   * set exactly when it was set before or its event occurred (an error event
   * only when the caller did not replace the handler), and `onLoad` and the
   * caller's `onError` were called once per event of theirs.
   */
  lemma {:induction false} RunImageFlags(p: ImageProps, s: ImageState, es: seq<ImageEvent>)
    ensures RunImage(p, s, es).isLoaded <==> s.isLoaded || LoadEvent in es
    ensures RunImage(p, s, es).error <==> s.error || (ErrorEvent in es && !p.restOnError)
    ensures RunImage(p, s, es).onLoadCalls == s.onLoadCalls + (if p.hasOnLoad then Count(es, LoadEvent) else 0)
    ensures RunImage(p, s, es).onErrorCalls == s.onErrorCalls + (if p.restOnError then Count(es, ErrorEvent) else 0)
    decreases |es|
  {
    if es != [] {
      RunImageFlags(p, ImageStep(p, s, es[0]), es[1..]);
      assert LoadEvent in es <==> es[0] == LoadEvent || LoadEvent in es[1..];
      assert ErrorEvent in es <==> es[0] == ErrorEvent || ErrorEvent in es[1..];
    }
  }

  datatype Style = Style(width: string, height: string, aspectRatio: Option<string>)

  /** The wrapper style: pixel sizes when given, `100%` and `auto` otherwise. */
  function WrapperStyle(width: Option<int>, height: Option<int>): (r: Style)
    ensures NonZero(width) ==> r.width == IntToString(width.value) + "px"
    ensures !NonZero(width) ==> r.width == "100%"
    ensures NonZero(height) ==> r.height == IntToString(height.value) + "px"
    ensures !NonZero(height) ==> r.height == "auto"
    ensures r.aspectRatio.Some? <==> NonZero(width) && NonZero(height)
  {
    Style(
      if NonZero(width) then IntToString(width.value) + "px" else "100%",
      if NonZero(height) then IntToString(height.value) + "px" else "auto",
      if NonZero(width) && NonZero(height)
      then Some(IntToString(width.value) + "/" + IntToString(height.value))
      else None)
  }

  /** The `srcSet` the `<img>` ends up with: the computed one, or the caller's from the rest props. */
  datatype SrcSetAttr = Generated(candidates: Option<seq<Candidate>>) | Given(value: Option<string>)

  /** What one render shows. */
  datatype PictureView = PictureView(
    pulse: bool,
    webpSource: Option<string>,
    imgSrc: string,
    srcSet: SrcSetAttr,
    imgShown: bool,
    style: Style)

  /** The fallback is taken once an error happened and a non-empty fallback is given. */
  predicate FallbackActive(p: ImageProps, s: ImageState) {
    s.error && Truthy(p.fallbackSrc)
  }

  /** The render of `OptimizedImage` for given props and state. */
  function Render(p: ImageProps, s: ImageState): (v: PictureView)
    ensures FallbackActive(p, s) ==> v.imgSrc == p.fallbackSrc.value && v.webpSource == None
    ensures !FallbackActive(p, s) ==> v.imgSrc == p.src
    ensures v.webpSource.Some? <==> Truthy(p.webpSrc) && !FallbackActive(p, s)
    ensures v.webpSource.Some? ==> v.webpSource == p.webpSrc
    ensures p.restSrcSet.None? ==> v.srcSet == Generated(GenerateSrcSet(v.imgSrc))
    ensures p.restSrcSet.Some? ==> v.srcSet == Given(p.restSrcSet.value)
    ensures v.pulse <==> !s.isLoaded
    ensures v.imgShown <==> s.isLoaded
    ensures v.style == WrapperStyle(p.width, p.height)
  {
    var fallback := FallbackActive(p, s);
    var actualSrc := if fallback then p.fallbackSrc.value else p.src;
    var actualWebpSrc := if fallback then None else p.webpSrc;
    PictureView(
      !s.isLoaded,
      if Truthy(actualWebpSrc) then actualWebpSrc else None,
      actualSrc,
      if p.restSrcSet.Some? then Given(p.restSrcSet.value) else Generated(GenerateSrcSet(actualSrc)),
      s.isLoaded,
      WrapperStyle(p.width, p.height))
  }

  /** Before any event the placeholder pulses and the original source is shown. */
  lemma InitialRender(p: ImageProps)
    ensures var v := Render(p, Initial);
            v.pulse && v.imgSrc == p.src &&
            (p.restSrcSet.None? ==> v.srcSet == Generated(GenerateSrcSet(p.src)))
  {
  }

  /**
   * A caller's `onError` replaces `handleError`: after any events `error` is
   * still false, so the fallback is never shown and the original source stays.
   */
  lemma CallerOnErrorDisablesFallback(p: ImageProps, es: seq<ImageEvent>)
    requires p.restOnError
    ensures !RunImage(p, Initial, es).error
    ensures Render(p, RunImage(p, Initial, es)).imgSrc == p.src
    ensures Render(p, RunImage(p, Initial, es)).webpSource.Some? <==> Truthy(p.webpSrc)
  {
    RunImageFlags(p, Initial, es);
  }

  /** Without a caller `onError`, an error with a fallback given switches the image to the fallback. */
  lemma ErrorShowsFallback(p: ImageProps, es: seq<ImageEvent>)
    requires !p.restOnError && Truthy(p.fallbackSrc) && ErrorEvent in es
    ensures Render(p, RunImage(p, Initial, es)).imgSrc == p.fallbackSrc.value
    ensures Render(p, RunImage(p, Initial, es)).webpSource == None
  {
    RunImageFlags(p, Initial, es);
  }

  /** The component instance: its two state hooks and the `onLoad` it calls. */
  class OptimizedImageComponent {
    const props: ImageProps
    var isLoaded: bool
    var error: bool
    var onLoadCalls: nat
    var onErrorCalls: nat

    function State(): ImageState
      reads this
    {
      ImageState(isLoaded, error, onLoadCalls, onErrorCalls)
    }

    constructor (p: ImageProps)
      ensures props == p && State() == Initial
    {
      props := p;
      isLoaded, error, onLoadCalls, onErrorCalls := false, false, 0, 0;
    }

    /** `handleLoad`: sets `isLoaded` and calls `onLoad` when given. */
    method HandleLoad()
      modifies this
      ensures State() == ImageStep(props, old(State()), LoadEvent)
    {
      isLoaded := true;
      if props.hasOnLoad {
        onLoadCalls := onLoadCalls + 1;
      }
    }

    /** The `<img>`'s `onError`: `handleError` sets `error`, unless the caller's handler replaced it. */
    method HandleError()
      modifies this
      ensures State() == ImageStep(props, old(State()), ErrorEvent)
    {
      if props.restOnError {
        onErrorCalls := onErrorCalls + 1;
      } else {
        error := true;
      }
    }

    function View(): PictureView
      reads this
    {
      Render(props, State())
    }
  }
}
