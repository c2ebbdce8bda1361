# CraftCode site logic in Dafny

This project models the logic behind the CraftCode marketing site and proves
properties of it. The site is a React single-page application with a handful
of Node build scripts. Its logic is small and sequential, and the model
covers these parts:

- **The WebP image pipeline.** In the browser, a detector and path rewriter
  (`webp-support.ts`) and the `<picture>` component (`optimized-image.tsx`).
  At build time, the converter script (`convert-to-webp.js`). It finds the raster
  images under `public/`, names each WebP output and its 800/480 px variants,
  skips outputs that are already up to date, and keeps going after a failure.
  The conversions share the target folder, so each one sees the outputs the
  earlier ones wrote.
- **SEO metadata** (`seo-utils.tsx`). The fallback chains for the title,
  description, page URL and images. The merge of the Open Graph and Twitter
  props over the site defaults. The list of head tags handed to Helmet. The
  product JSON-LD builder.
- **The deployment base path** (`vite.config.ts`). The repository name is
  taken from the git remote URL with the pattern `([\w-]+)(\.git)?$`, and
  production builds are served below `/<name>/`.
- **The report scripts.** The bundle analyser (`analyze-bundle.js`) does a
  recursive scan, a stable descending sort, totals and the top five files.
  The interactive browser-compatibility questionnaire
  (`browser-compatibility.js`) records results, counts issues and grades
  their severity.
- **Two small state machines.** The lazy-mount wrapper (`lazy-load.tsx`), and
  the script loader with its strategy dispatch and `loaded` flag
  (`script-loader.tsx`).

There is one module per source file, plus three shared ones:

- `JsString` holds the ECMAScript string operations the code relies on:
  `lastIndexOf` answering -1, `substring` clamping, `split(c).pop()`, ASCII
  case mapping and `trim`.
- `NodePath` holds `path.join` and `path.extname` on plain names.
- `Options` and `Sequences` hold an option type and a lemma about
  concatenation.

The code is modelled in the form it has:

- Pure expressions become functions.
- The accumulating recursions and loops become methods. Each is proved equal
  to a recursive specification function, and the properties are proved about
  that function: `FindImageFiles`, `ScanDirectory`, the questionnaire loops and
  the conversion loop.
- Components and module state become classes. Each method's `ensures` ties the
  new state to a pure step function, and the lemmas about traces of step
  functions carry the properties.

Everything outside the program is an input or an event:

- the file system listing and the source files' modification times;
- the target folder's files, their times and the clock when the loop starts;
- what `sharp` reports and where it throws;
- the output of `git config`;
- the WebP probe's answer;
- the answers typed at the prompt;
- `readyState` and `requestIdleCallback` support;
- the browser's load, idle, timer and intersection callbacks.

## Model

| member | source | states |
|---|---|---|
| JsString.LastIndexOf | src/lib/webp-support.ts:57 | The result is -1 exactly when the character is absent; otherwise it is a position holding the character. |
| JsString.LastIndexOfIsLast | src/lib/webp-support.ts:57 | No occurrence of the character follows the position `lastIndexOf` returns. |
| JsString.AfterLast | src/lib/webp-support.ts:54 | `split(c).pop()` is the suffix after the last `c`: it holds no `c`, the character before it is a `c` when the input has one, and it is the whole input otherwise. |
| JsString.AfterLastUnique | src/lib/webp-support.ts:54 | When the input holds `c`, the only `c`-free suffix preceded by a `c` is the text after the last `c`, so the contract of `AfterLast` fixes its value. |
| JsString.BeforeFirst | src/lib/webp-support.ts:68 | `split(c)[0]` is a prefix holding no `c`, and it stops at the first `c` when there is one. |
| JsString.ToLower | src/lib/webp-support.ts:54 | Lower-casing keeps the length and maps each character on its own. |
| JsString.ToLowerKeepsAbsent | src/lib/webp-support.ts:54 | Lower-casing never brings in a character that is not a letter, so a '.'-free text stays '.'-free. |
| JsString.Trim | vite.config.ts:11 | The result is an infix of the input with only white space (ECMAScript's White_Space and line terminators) before and after it, and it neither starts nor ends with white space. |
| JsString.TrimIdempotent | vite.config.ts:11 | Trimming twice is trimming once. |
| JsString.NatToString | src/components/ui/optimized-image.tsx:82-83 | The decimal text of a number is non-empty, all digits, and has no leading zero. |
| JsString.NatToStringValue | src/components/ui/optimized-image.tsx:82-83 | The decimal digits written for a number read back as that number. |
| JsString.IntToString | src/components/ui/optimized-image.tsx:82-84 | The decimal text of an integer starts with '-' exactly for negative numbers, and the digits after it read back as the magnitude, below the 10^21 exponent threshold. |
| NodePath.ExtName | scripts/convert-to-webp.js:43 | `path.extname` is empty or a '.' followed by dot-free text, and it ends the name; it is empty when the name has no '.'. |
| NodePath.ExtNameOfStem | scripts/convert-to-webp.js:56 | For a non-empty stem, the extension of `stem.tail` is `.tail` when `tail` is non-empty and dot-free. |
| NodePath.StripExt | scripts/convert-to-webp.js:56 | `path.basename(p, path.extname(p))` is the prefix of the name without its last extension. |
| WebPSupport.ExtensionOf | src/lib/webp-support.ts:54 | The extension is the lower-cased suffix of the path after its last '.': it holds no '.', a '.' precedes it when the path has one, and it is the whole lower-cased path otherwise. |
| WebPSupport.GetOptimizedImagePath | src/lib/webp-support.ts:51-59 | Without confirmed support, for an empty path, or for an empty, `webp` or `svg` extension, the path is returned unchanged. Otherwise the result is the text before the last '.' followed by `.webp`. |
| WebPSupport.OptimizedPathChangesIff | src/lib/webp-support.ts:52-58 | The path changes exactly when support is confirmed, the path is non-empty and its extension is not empty, `webp` or `svg`. |
| WebPSupport.OptimizedPathIdempotent | src/lib/webp-support.ts:54-58 | Rewriting a rewritten path changes nothing. |
| WebPSupport.WebPSuffixExtension | src/lib/webp-support.ts:54-55 | Any path ending in `.webp` has extension `webp`, so it is kept as it is. |
| WebPSupport.OptimizedPathWithoutDot | src/lib/webp-support.ts:57-58 | A path with no '.' whose lower-cased text is not `webp` or `svg` becomes just `.webp`. |
| WebPSupport.FileStem | src/lib/webp-support.ts:68 | The file stem is the part of the last '/'-segment before its first '.': it holds no '/' or '.'. |
| WebPSupport.GenerateWebPPath | src/lib/webp-support.ts:62-70 | The result is empty exactly for an empty path or an empty, `webp` or `svg` extension; otherwise it is `/images/webp/` + stem + `.webp`. |
| WebPSupport.WebPPathIgnoresDirectory | src/lib/webp-support.ts:68-69 | The directories of the input do not change the WebP path: sources in different folders with the same name collide. |
| WebPSupport.WebPPathCutsAtFirstDot | src/lib/webp-support.ts:68-69 | Everything after the first '.' of the file name is dropped, secondary extensions included. |
| WebPSupport.WithWebPBackground | src/lib/webp-support.ts:43-46 | An element with a non-empty `data-webp-bg` gets `url('<value>')` as its background; other elements are unchanged. |
| WebPSupport.ApplyWebPBackgrounds | src/lib/webp-support.ts:40-48 | Every matched element is updated in place as above. |
| WebPSupport.WebPDetector.constructor | src/lib/webp-support.ts:18 | The flag starts undecided, with no class on the document element. |
| WebPSupport.WebPDetector.Init | src/lib/webp-support.ts:21-37 | Only an undecided flag is set, to the probe's answer. The matching class is added. Backgrounds are applied only when WebP is supported. A decided flag makes the call change nothing. |
| WebPSupport.WebPDetector.OptimizedImagePath | src/lib/webp-support.ts:51-59 | Rewriting against the current flag is `getOptimizedImagePath` on that flag: the input comes back unless support is confirmed, and a rewritten path differs from the input and ends in `.webp`. |
| OptimizedImage.SplitAtLastDot | src/components/ui/optimized-image.tsx:55-56 | Base and extension concatenate back to the source; the extension is '.' followed by dot-free text, and the base is empty when the source has no '.' (the `substring(0, -1)` case). |
| OptimizedImage.GenerateSrcSet | src/components/ui/optimized-image.tsx:50-65 | A srcset exists exactly when the source contains `_w_` or `_c_scale`; it has one candidate per variant, each base + `_w_<n>` + extension. |
| OptimizedImage.SrcSetWidthsAscend | src/components/ui/optimized-image.tsx:58-62 | The candidates are exactly 480w, 800w and 1200w, in that order. |
| OptimizedImage.RunImageFlags | src/components/ui/optimized-image.tsx:35-47 | From any state, after any events, `isLoaded` is set exactly when it was or a load occurred, and `error` exactly when it was or an error occurred while no caller `onError` replaces the handler. `onLoad` and the caller's `onError` are called once per event of theirs. |
| OptimizedImage.WrapperStyle | src/components/ui/optimized-image.tsx:81-85 | Width is `<w>px` or `100%`, height `<h>px` or `auto`, and an aspect ratio is set exactly when both are non-zero. |
| OptimizedImage.Render | src/components/ui/optimized-image.tsx:68-108 | The fallback source is shown exactly when `error` is set and a fallback is given, and then no WebP source is emitted. The srcset is the shown source's unless the caller's `srcSet` in the rest props replaces it. The pulse shows exactly while not loaded. |
| OptimizedImage.InitialRender | src/components/ui/optimized-image.tsx:35-36 | Before any event the wrapper pulses and the original source is shown, with its computed srcset unless the caller gives one. |
| OptimizedImage.CallerOnErrorDisablesFallback | src/components/ui/optimized-image.tsx:100-107 | A caller's `onError` in the rest props replaces `handleError`: after any events `error` is still false, so the original source and its WebP source stay. |
| OptimizedImage.ErrorShowsFallback | src/components/ui/optimized-image.tsx:44-69 | Without a caller `onError`, an error event with a fallback given switches the image to the fallback and drops the WebP source. |
| OptimizedImage.OptimizedImageComponent.constructor | src/components/ui/optimized-image.tsx:35-36 | Both flags start false and no `onLoad` has been called. |
| OptimizedImage.OptimizedImageComponent.HandleLoad | src/components/ui/optimized-image.tsx:39-42 | The new state is one load step from the old one. |
| OptimizedImage.OptimizedImageComponent.HandleError | src/components/ui/optimized-image.tsx:45-47 | The new state is one error step from the old one. |
| ConvertToWebP.FindImageFiles | scripts/convert-to-webp.js:33-51 | The shared accumulator grows by exactly the images of the listing, in `forEach` order with directories expanded in place. |
| ConvertToWebP.VisitEntry | scripts/convert-to-webp.js:36-48 | One entry adds the images of a searched directory, or the entry itself when its extension is an image extension. |
| ConvertToWebP.CollectedUnder | scripts/convert-to-webp.js:37-45 | Every collected path lies below the searched directory. |
| ConvertToWebP.CollectedAreImages | scripts/convert-to-webp.js:24 | Every collected path ends in a name whose lower-cased extension is `.jpg`, `.jpeg`, `.png` or `.gif`. |
| ConvertToWebP.ExcludedDirectoryNotSearched | scripts/convert-to-webp.js:40 | A directory whose path contains `node_modules` or `.git` (so `.github` too) is not searched. |
| ConvertToWebP.FileName | scripts/convert-to-webp.js:56 | The output stem holds no '/'. |
| ConvertToWebP.OutputPathTopLevel | scripts/convert-to-webp.js:56-66 | A file directly in the source folder is written as `<target>/<name without last extension>.webp`. |
| ConvertToWebP.OutputPathKeepsSubdirectory | scripts/convert-to-webp.js:57-66 | A file in a sub-directory keeps that sub-directory below the target folder. |
| ConvertToWebP.ConvertedOutputs | scripts/convert-to-webp.js:69-103 | A completed conversion was not up to date. It wrote the full-size output, plus the 800 and 480 variants exactly when the width exceeds 800. |
| ConvertToWebP.SkippedIff | scripts/convert-to-webp.js:69-76 | A file is skipped exactly when nothing threw before the check and the disk it sees holds its output, stamped strictly later than the source. |
| ConvertToWebP.WrittenAreOutputs | scripts/convert-to-webp.js:66-97 | Whatever the outcome, every written path is one of the three output names of its source. |
| ConvertToWebP.WebPNameNotImage | scripts/convert-to-webp.js:24-44 | No name ending in `.webp` passes the input filter. |
| ConvertToWebP.OutputsNeverRecollected | scripts/convert-to-webp.js:22-44 | Nothing the converter writes can be collected by a later search of the source tree. |
| ConvertToWebP.NeverWritesW1200 | scripts/convert-to-webp.js:88-103 | No `_w_1200` variant is ever written, although the srcset asks for one. |
| ConvertToWebP.StoreFacts | scripts/convert-to-webp.js:80-101 | After a conversion's writes, each written file exists with a time no earlier than the clock at the start, and every other file is as it was. |
| ConvertToWebP.ConvertAll | scripts/convert-to-webp.js:117-119 | The loop yields one outcome per collected file. |
| ConvertToWebP.Jobs | scripts/convert-to-webp.js:56-66 | Each collected file's conversion uses that file's three output names and its own facts. |
| ConvertToWebP.RunAllAt | scripts/convert-to-webp.js:117-119 | The `i`-th conversion of the loop runs on the disk that the `i` conversions before it left. |
| ConvertToWebP.ConvertAllAt | scripts/convert-to-webp.js:105-119 | A failure does not stop the loop: file `i` gets the outcome of its own conversion on the disk the files before it left, outputs included. |
| ConvertToWebP.NothingWrittenSameDisk | scripts/convert-to-webp.js:69-107 | A conversion that wrote nothing leaves the disk as it was. |
| ConvertToWebP.ConvertedOutputStored | scripts/convert-to-webp.js:80-82 | A completed conversion leaves its output on the disk, stamped no earlier than the clock when it started. |
| ConvertToWebP.SameStemSameOutput | scripts/convert-to-webp.js:56-66 | `a.png` and `a.jpg` in one folder share the output `a.webp`. |
| ConvertToWebP.SameStemSkipped | scripts/convert-to-webp.js:56-82 | Once `a.png` has been converted, `a.jpg`, older than the clock, finds the shared output newer than itself and is skipped. |
| ConvertToWebP.SecondOfTwo | scripts/convert-to-webp.js:117-119 | The second of two conversions runs on the disk the first left. |
| ConvertToWebP.SameStemSkippedInLoop | scripts/convert-to-webp.js:117-119 | In the loop, the second of two same-stem sources is skipped once the first was converted. |
| ConvertToWebP.EarlyFailureNoEffect | scripts/convert-to-webp.js:55-107 | A file that fails before the check writes nothing, so the next file sees the disk as it was. |
| ConvertToWebP.RunConversion | scripts/convert-to-webp.js:111-122 | `main` collects exactly the images of the tree, all below the source folder, converts them one by one in that order, and leaves the disk their writes produce. |
| SeoUtils.Spread | src/lib/seo-utils.tsx:67-69 | A later spread object wins for a key whenever it writes that key, even with `undefined`. |
| SeoUtils.OrElse | src/lib/seo-utils.tsx:70-71 | `a \|\| b` is `a` when `a` is a non-empty string, else `b`. |
| SeoUtils.SiteUrl | src/lib/seo-utils.tsx:61 | The site URL is the build variable when non-empty, otherwise the production domain; it is never empty. |
| SeoUtils.FullTitle | src/lib/seo-utils.tsx:62 | A non-empty title gets the ` \| CraftCode` suffix; an empty one becomes the default title. |
| SeoUtils.MetaDescription | src/lib/seo-utils.tsx:63 | A non-empty description is kept; the result is never empty. |
| SeoUtils.PageUrlChain | src/lib/seo-utils.tsx:64 | The page URL is `canonical`, else the caller's `openGraph.url`, else the site URL, and it is never empty. |
| SeoUtils.MergedOpenGraph | src/lib/seo-utils.tsx:67-73 | After the merge, the Open Graph title, description and URL are always written. |
| SeoUtils.MergedTwitter | src/lib/seo-utils.tsx:75-80 | After the merge, the Twitter title and description are always written. |
| SeoUtils.GetAbsoluteUrl | src/lib/seo-utils.tsx:86-89 | An empty path gives nothing, a path starting with `http` is kept, and any other is prefixed with the site URL. |
| SeoUtils.AbsoluteUrlIdempotent | src/lib/seo-utils.tsx:86-89 | With a site URL starting with `http`, resolving a resolved URL changes nothing. |
| SeoUtils.TitleFirst | src/lib/seo-utils.tsx:94 | The first head tag is the title with the resolved full title. |
| SeoUtils.RobotsIff | src/lib/seo-utils.tsx:59-115 | The robots tag is emitted exactly when `noindex` is passed as true. |
| SeoUtils.MissingNoindexIndexable | src/lib/seo-utils.tsx:59-115 | A page that does not pass `noindex` gets no robots tag. The not-found page (src/pages/NotFound.tsx:20) spells it `noIndex`, so it is indexable. |
| SeoUtils.CanonicalIff | src/lib/seo-utils.tsx:96 | A canonical link is emitted exactly when `canonical` is non-empty, and every one points at it. |
| SeoUtils.JsonLdIff | src/lib/seo-utils.tsx:118-122 | A JSON-LD script is emitted exactly when `jsonLd` is given, as the last tag, holding that data. |
| SeoUtils.OgUrlIsPageUrl | src/lib/seo-utils.tsx:72-102 | `og:url` is always emitted and always carries the page URL. |
| SeoUtils.SocialTextFallbacks | src/lib/seo-utils.tsx:70-79 | The Open Graph and Twitter titles and descriptions are never empty, and they are the page's own when the caller passes no object. |
| SeoUtils.DefaultOgImageKept | src/lib/seo-utils.tsx:38-83 | Unless the caller writes the `image` key, the Open Graph image is the default `/og-image.jpg`. |
| SeoUtils.TwitterImageFallsBack | src/lib/seo-utils.tsx:84 | Without a truthy Twitter image, the Twitter image is the Open Graph image. |
| SeoUtils.DefaultImageTags | src/lib/seo-utils.tsx:104-112 | With no social props, both image tags carry the site URL followed by `/og-image.jpg`. |
| SeoUtils.GenerateProductJsonLd | src/lib/seo-utils.tsx:200-225 | The product JSON-LD is an object whose `@context`, `@type`, `name`, `description` and `image` are the schema.org constants and the product's own; `offers` is the offer built from the product exactly when the price is truthy, and absent otherwise. |
| SeoUtils.MemberSpec | src/lib/seo-utils.tsx:200-225 | A key lookup on an object's members finds nothing exactly when no member has the key, and what it finds is a member's value. |
| SeoUtils.HeadMembers | src/lib/seo-utils.tsx:200-225 | With the five fixed members first, each of their keys looks up its constant or product value, and `offers` is found exactly in the extra member for a truthy price. |
| SeoUtils.ProductOffersIff | src/lib/seo-utils.tsx:200-225 | Some member is `offers` exactly when the price is truthy, and then it is the sixth and last; the first five members are always the same five. |
| SeoUtils.OfferDefaults | src/lib/seo-utils.tsx:215-223 | A missing currency, availability and url default to `BRL`, `https://schema.org/InStock` and `https://craftcode.com.br`. |
| ViteConfig.RunEnd | vite.config.ts:12 | The greedy `[\w-]+` run ends at the first character outside the class or at the end. |
| ViteConfig.RegexAtUnique | vite.config.ts:12 | A literal reading of the pattern at a start has only one possible end, the greedy one. |
| ViteConfig.MatchesAtIff | vite.config.ts:12 | The start test of the search agrees with the literal reading of the pattern. |
| ViteConfig.SearchLeftmost | vite.config.ts:12-13 | The match is the group of the leftmost start that matches, and no match means no start matches. |
| ViteConfig.MatchedNameShape | vite.config.ts:12 | A matched name is a non-empty run of `[A-Za-z0-9_-]`, so it holds no '.' or '/'. |
| ViteConfig.RepoNameIsSegment | vite.config.ts:8-18 | The repository name is never empty and holds no '/'. |
| ViteConfig.LastSegmentIsRepo | vite.config.ts:12-13 | After a separator, a word-only last segment with an optional `.git` in any case is the name returned. |
| ViteConfig.GitHubPagesExample | vite.config.ts:12-13 | `…/x.github.io.git` yields `io`. |
| ViteConfig.TrailingSlashFallsBack | vite.config.ts:13 | A URL ending in '/' matches nothing, so the fixed name is used. |
| ViteConfig.GitFailureFallsBack | vite.config.ts:14-17 | A failing git command gives `craftcode-digital-hub`. |
| ViteConfig.BaseOutsideProduction | vite.config.ts:23 | Every mode other than `production` is served from `/`. |
| ViteConfig.BaseInProduction | vite.config.ts:23 | A production base is `/` + repository name + `/`, one segment between two slashes. |
| AnalyzeBundle.FormatSize | scripts/analyze-bundle.js:36-41 | Zero bytes format as `0 B`; every other size is beyond the model. |
| AnalyzeBundle.ScannedAppend | scripts/analyze-bundle.js:62-80 | Scanning one more item appends that item's files. |
| AnalyzeBundle.ScannedMatch | scripts/analyze-bundle.js:67-78 | Every recorded path ends in `.js` or `.css`, and its formatted size is its size formatted. |
| AnalyzeBundle.ScannedTypes | scripts/analyze-bundle.js:71 | With no bare `.js`/`.css` dot-file, every recorded type is `JS` or `CSS`. |
| AnalyzeBundle.JsType | scripts/analyze-bundle.js:71 | A name ending in `.js` (not `.js` itself) has type `JS`. |
| AnalyzeBundle.CssType | scripts/analyze-bundle.js:71 | A name ending in `.css` (not `.css` itself) has type `CSS`. |
| AnalyzeBundle.SortSorted | scripts/analyze-bundle.js:86 | The sort leaves the files in non-increasing order of size. |
| AnalyzeBundle.SortPermutes | scripts/analyze-bundle.js:86 | The sort is a permutation and keeps the total size. |
| AnalyzeBundle.SortStable | scripts/analyze-bundle.js:86 | Files of equal size keep the order in which they were scanned. |
| AnalyzeBundle.TotalsSplit | scripts/analyze-bundle.js:89-95 | With only JS and CSS files, the JavaScript and CSS totals add up to the total. |
| AnalyzeBundle.TopAreLargest | scripts/analyze-bundle.js:265 | The top list has min(5, n) entries, none smaller than any file left out. |
| AnalyzeBundle.BundleAnalyzer.constructor | scripts/analyze-bundle.js:57 | The `files` array starts empty. |
| AnalyzeBundle.BundleAnalyzer.ScanDirectory | scripts/analyze-bundle.js:59-81 | The scan appends exactly the matching files below the listing, in `forEach` order. |
| AnalyzeBundle.BundleAnalyzer.VisitItem | scripts/analyze-bundle.js:62-80 | One item appends the files of a directory below its relative path, or a matching file's record. |
| AnalyzeBundle.BundleAnalyzer.SortFiles | scripts/analyze-bundle.js:86 | The in-place sort leaves `files` sorted by size and a permutation of what it was. |
| AnalyzeBundle.BundleAnalyzer.Analyze | scripts/analyze-bundle.js:57-95 | The report lists the scanned files sorted, their total, and JS plus CSS equal to the total when no bare dot-file is present. |
| BrowserCompatibility.AskFeatures | scripts/browser-compatibility.js:90-100 | The feature loop records exactly what the questionnaire specifies for the answers, or runs out of answers. |
| BrowserCompatibility.TestCombination | scripts/browser-compatibility.js:82-105 | One browser and device pair gives its features and its additional notes as specified. |
| BrowserCompatibility.RecordTests | scripts/browser-compatibility.js:78-107 | The nested loops record the tests as specified, browser-major. |
| BrowserCompatibility.RunCompatibilityTest | scripts/browser-compatibility.js:63-107 | The session reads the tester's name, then all twelve pairs. |
| BrowserCompatibility.ReadFeaturesShape | scripts/browser-compatibility.js:90-99 | Recorded features are a subsequence of the feature list, none is `skip`, and every `pass` has empty notes. One answer is used per feature, plus one more per recorded feature that is not `pass`. When no `skip` is typed, every feature is recorded, in list order. |
| BrowserCompatibility.ReadFeaturesAppend | scripts/browser-compatibility.js:90-99 | Reading the prompts of two lists of features in turn is reading the first, then the second from where the first stopped. |
| BrowserCompatibility.FeatureRecordedIff | scripts/browser-compatibility.js:91-98 | Feature `k` is asked where the reading of the earlier features stopped. A `skip` answer there records nothing for it. Any other answer records it right after the earlier entries, with that answer as its status and the next answer as its notes unless it is `pass`. |
| BrowserCompatibility.CombinationShape | scripts/browser-compatibility.js:82-105 | A recorded test names its browser and device and records its features well, all of them when no `skip` is typed. |
| BrowserCompatibility.ReadDevicesShape | scripts/browser-compatibility.js:79-106 | One test is recorded per device, in device order, and each records every feature when no `skip` is typed. |
| BrowserCompatibility.ReadBrowsersShape | scripts/browser-compatibility.js:78-107 | With three devices, test `i` is browser `i / 3` on device `i % 3`, and each records every feature when no `skip` is typed. |
| BrowserCompatibility.SessionShape | scripts/browser-compatibility.js:23-105 | A completed session has exactly 12 tests, browser-major in list order, each recording its features well. Each records all ten features when no `skip` is typed. |
| BrowserCompatibility.SessionNeedsAnswers | scripts/browser-compatibility.js:75-103 | Fewer than 133 answers (the name, 10 per pair and 1 note per pair) cannot complete a session. |
| BrowserCompatibility.ReadBrowsersConsumes | scripts/browser-compatibility.js:78-107 | Each browser uses at least 33 answers. |
| BrowserCompatibility.ReadDevicesConsumes | scripts/browser-compatibility.js:79-106 | Each device uses at least 11 answers. |
| BrowserCompatibility.CountIssuesZeroIff | scripts/browser-compatibility.js:131 | A test has no issue exactly when no recorded feature is `fail` or `partial`; it has at most one per feature. |
| BrowserCompatibility.IssuesZeroIff | scripts/browser-compatibility.js:130-132 | The issue count is zero exactly when no test has a `fail` or `partial` feature. |
| BrowserCompatibility.IssuesBound | scripts/browser-compatibility.js:130-132 | Well-recorded tests have at most 10 issues each. |
| BrowserCompatibility.SessionIssuesBound | scripts/browser-compatibility.js:130-132 | A session has at most 120 issues. |
| BrowserCompatibility.SeverityOfTests | scripts/browser-compatibility.js:265 | The class is `good` exactly without issues, `bad` exactly above 5, and `warning` otherwise. |
| BrowserCompatibility.NotesCellShown | scripts/browser-compatibility.js:289 | A notes cell is never empty: the notes, or `-`. |
| BrowserCompatibility.NotesBlockShown | scripts/browser-compatibility.js:295 | The additional-notes block appears exactly when the notes are non-empty, and it ends with them. |
| LazyLoad.MountedState | src/components/ui/lazy-load.tsx:25-36 | `isVisible` starts as `!enabled`, and the mounted wrapper satisfies the invariant with no observer. |
| LazyLoad.StepValid | src/components/ui/lazy-load.tsx:28-59 | Every event keeps the invariant, and `isVisible` never goes back to false. |
| LazyLoad.RunValid | src/components/ui/lazy-load.tsx:25-59 | Along any run the invariant holds and visibility once reached is kept. |
| LazyLoad.DisabledAlwaysVisible | src/components/ui/lazy-load.tsx:30-33 | A disabled wrapper shows its children after any events. |
| LazyLoad.NoObserverOnceVisible | src/components/ui/lazy-load.tsx:36 | Once visible, no observer is connected again. |
| LazyLoad.ContainerStartsObserving | src/components/ui/lazy-load.tsx:36-54 | Setting the container of an enabled, hidden wrapper connects an observer. |
| LazyLoad.EntryEffect | src/components/ui/lazy-load.tsx:41-45 | An intersecting entry shows the content and disconnects; any other entry changes nothing. |
| LazyLoad.HiddenUntilIntersecting | src/components/ui/lazy-load.tsx:38-46 | Without an intersecting entry, an enabled wrapper stays hidden. |
| LazyLoad.RenderChoice | src/components/ui/lazy-load.tsx:66-68 | Children exactly when visible; otherwise the placeholder if given, else the skeleton. |
| LazyLoad.LazyLoadComponent.constructor | src/components/ui/lazy-load.tsx:25-59 | The new component is in the mounted state. |
| LazyLoad.LazyLoadComponent.RunEffect | src/components/ui/lazy-load.tsx:28-59 | The effect and its previous cleanup take the state to the effect's result. |
| LazyLoad.LazyLoadComponent.SetContainerRef | src/components/ui/lazy-load.tsx:26-63 | The ref callback is one container step. |
| LazyLoad.LazyLoadComponent.OnEntry | src/components/ui/lazy-load.tsx:39-46 | The observer callback is one entry step. |
| ScriptLoader.LoadedDoesNothing | src/components/ui/script-loader.tsx:41 | When `loaded` is true, the effect changes nothing. |
| ScriptLoader.ExistingElementReused | src/components/ui/script-loader.tsx:44-48 | An element with id `id \|\| src` already present sets `loaded`, calls `onLoad`, and appends nothing. |
| ScriptLoader.StrategyDispatch | src/components/ui/script-loader.tsx:73-91 | After the cleanup, `beforeInteractive` appends at once. `afterInteractive` appends at once on a complete page and otherwise registers a `load` listener. `lazyOnload` schedules one more idle callback if available, else one more 1500 ms timer. |
| ScriptLoader.LoadAndErrorEvents | src/components/ui/script-loader.tsx:60-67 | The `onload` of an appended script sets `loaded` and calls `onLoad`; its `onerror` calls only `onError` and leaves `loaded` as it was. |
| ScriptLoader.UnmountLeavesLazyCallbacks | src/components/ui/script-loader.tsx:82-90 | Unmounting removes the load listener and no idle callback or timer; a waiting idle callback still appends the script. |
| ScriptLoader.ElementIdOnlyWhenGiven | src/components/ui/script-loader.tsx:53-57 | The appended element has an id exactly when `id` is given, and then it is the lookup key. |
| ScriptLoader.NoIdNotFound | src/components/ui/script-loader.tsx:44-57 | Without an id, appending adds no id to the page, so the lookup by `src` cannot find the script. |
| ScriptLoader.SecondInstanceAppendsAgain | src/components/ui/script-loader.tsx:44-69 | A second loader for the same `src` without an id appends a second script. |
| ScriptLoader.RerenderWithoutIdAppendsAgain | src/components/ui/script-loader.tsx:93 | A parent render with new callbacks before the script loads appends the script again when no id is given. |
| ScriptLoader.RerenderWithIdReportsEarlyLoad | src/components/ui/script-loader.tsx:44-93 | With an id, such a render finds the script's own element and reports `loaded` before the script has loaded; its `onload` then calls `onLoad` a second time. |
| ScriptLoader.LazyRerenderAppendsTwice | src/components/ui/script-loader.tsx:84-93 | A `lazyOnload` loader re-rendered before its idle callback ran has two callbacks waiting; both append the script, even with an id, and both `onload`s call `onLoad`. |
| ScriptLoader.TwoIdleCallbacksRun | src/components/ui/script-loader.tsx:86-87 | Two waiting idle callbacks each append a copy of the script. |
| ScriptLoader.TwoLoadsTwoCalls | src/components/ui/script-loader.tsx:60-63 | Two loading scripts that both load call `onLoad` twice. |
| ScriptLoader.MountValid | src/components/ui/script-loader.tsx:37-93 | A mounted loader satisfies the single-instance invariant. |
| ScriptLoader.StepValid | src/components/ui/script-loader.tsx:39-93 | Every browser event keeps the invariant. |
| ScriptLoader.RunValid | src/components/ui/script-loader.tsx:39-93 | Along any run of browser events without a parent re-render, at most one script is appended and `onLoad` and `onError` are called at most once each. |
| ScriptLoader.AtMostOneScript | src/components/ui/script-loader.tsx:39-93 | A mounted loader that is not re-rendered appends at most one script and calls `onLoad` at most once. |
| ScriptLoader.ScriptLoaderComponent.constructor | src/components/ui/script-loader.tsx:37-93 | The new component is in the mounted state. |
| ScriptLoader.ScriptLoaderComponent.AppendScript | src/components/ui/script-loader.tsx:52-70 | `loadScript` appends the element and arms its handlers. |
| ScriptLoader.ScriptLoaderComponent.RunEffect | src/components/ui/script-loader.tsx:39-93 | The method is the effect. |
| ScriptLoader.ScriptLoaderComponent.RerunEffect | src/components/ui/script-loader.tsx:82-93 | The cleanup, then the effect again. |
| ScriptLoader.ScriptLoaderComponent.OnWindowLoad | src/components/ui/script-loader.tsx:81 | The window `load` event is one step. |
| ScriptLoader.ScriptLoaderComponent.OnIdle | src/components/ui/script-loader.tsx:87 | The idle callback is one step. |
| ScriptLoader.ScriptLoaderComponent.RunDeferred | src/components/ui/script-loader.tsx:86-90 | One waiting idle callback or timer of the given kind runs `loadScript`. |
| ScriptLoader.ScriptLoaderComponent.OnTimer | src/components/ui/script-loader.tsx:90 | A 1500 ms timer firing is one step. |
| ScriptLoader.ScriptLoaderComponent.OnRerender | src/components/ui/script-loader.tsx:93 | A parent render with new callbacks re-runs the effect. |
| ScriptLoader.ScriptLoaderComponent.OnScriptLoad | src/components/ui/script-loader.tsx:60-63 | The `onload` of the `i`-th appended script is one step. |
| ScriptLoader.ScriptLoaderComponent.OnScriptError | src/components/ui/script-loader.tsx:65-67 | The `onerror` of the `i`-th appended script is one step. |
| ScriptLoader.ScriptLoaderComponent.OnUnmount | src/components/ui/script-loader.tsx:82 | Unmounting runs the cleanup. |

## Observations

The three WebP files do not agree on names:

- The converter keeps sub-directories (`OutputPathKeepsSubdirectory`), but
  `generateWebPPath` drops them (`WebPPathIgnoresDirectory`).
- The converter strips only the last extension (`OutputPathTopLevel`), but
  `generateWebPPath` cuts at the first '.' (`WebPPathCutsAtFirstDot`).
- The srcset asks for a `_w_1200` variant (`SrcSetWidthsAscend`) that the
  converter never writes (`NeverWritesW1200`).

Other observations:

- The not-found page passes `noIndex`, so it gets no robots tag
  (`MissingNoindexIndexable`).
- The descent guard's substring test also skips `.github`
  (`ExcludedDirectoryNotSearched`).
- A GitHub Pages repository named `x.github.io` yields the base `/io/`
  (`GitHubPagesExample`).
- Script loaders without an id append duplicates
  (`SecondInstanceAppendsAgain`, `RerenderWithoutIdAppendsAgain`).
- A `lazyOnload` loader re-rendered with new callbacks before its idle
  callback ran appends the script twice, even with an id, because its cleanup
  cancels no idle callback or timer (`LazyRerenderAppendsTwice`).
- Sources with the same stem in one folder, such as `a.png` and `a.jpg`, share
  one output; once the first is converted, the second is skipped
  (`SameStemSkipped`, `SameStemSkippedInLoop`).

These are stated as lemmas about the code as written; none of them is
corrected in the model.

## Left out

- DOM, browser and Node APIs are not modelled. Their outcomes are parameters
  or events, as listed above. This covers:
  - the `Image` probe of `checkWebPSupport`;
  - `classList`, `style` and `querySelectorAll`;
  - `IntersectionObserver` options (`threshold`, `rootMargin`), which are passed through unchanged;
  - `readdirSync`, `statSync` and `mkdirSync`;
  - `sharp`;
  - `execSync`;
  - `readline`;
  - `Date`;
  - `console` output;
  - `process.exit`.
- Asynchronous interleavings are not modelled. Conversions run one after
  another as `main` awaits them. The questionnaire is treated as a sequence of
  answers.
- BrowserCompatibility.RunCompatibilityTest: when the answers run out the
  result is `None`. The real prompt would wait for input forever.
- AnalyzeBundle.FormatSize: only the zero case is modelled. Other sizes need
  floating-point `Math.log`, `Math.pow` and `toFixed`, and give `None`.
- The JSON and HTML report files are not modelled; only the figures and the
  cells they show are. This covers the timestamps, file writes and
  `JSON.stringify` of both scripts.
- Helmet itself is not modelled; the model stops at the list of head tags.
  JSON-LD is a value, not its serialised text.
- The organisation and local-business JSON-LD constants of `seo-utils.tsx`
  are not modelled. They are fixed data with no logic.
- OptimizedImage.GenerateSrcSet: the result is a list of candidates, not the
  template string with its line breaks and indentation.
- JsString.ToLower and JsString.ToUpper are ASCII only: case mapping covers
  `A`–`Z` and `a`–`z`, and ECMAScript's Unicode case tables are not
  modelled. JsString.Trim removes the full ECMAScript set of white space and
  line terminators.
- NodePath.Join and NodePath.ExtName are modelled for normalised directories
  and plain names without '/'. `path.join` normalisation of `..` and repeated
  separators is not modelled.
- ConvertToWebP: `path.relative` and `path.dirname` are modelled for paths
  below the source folder, which is the only kind the search produces. The
  `quality` setting and the image contents are not modelled.
- React re-render semantics are modelled only as far as the effects'
  dependencies require:
  - for the lazy wrapper, a changed `containerRef` or `isVisible`;
  - for the script loader, a parent render that passes new callbacks
    (`Rerender`).
- ScriptLoader.RunValid and ScriptLoader.AtMostOneScript: the single-instance
  bound covers runs of browser events without a parent re-render. With
  re-renders the bound does not hold. `RerenderWithoutIdAppendsAgain`,
  `RerenderWithIdReportsEarlyLoad` and `LazyRerenderAppendsTwice` state what
  happens instead.
- ScriptLoader.StrategyDispatch requires that no `load` listener is
  registered. The cleanup that precedes every re-run of the effect removes it,
  so that always holds when the dispatch is reached.
- OptimizedImage.Render and OptimizedImage.ImageStep: of the keys the
  `...props` rest object can override on the `<img>`, only `onError` and
  `srcSet` are modelled. `src`, `className` and `onLoad` are destructured
  out of the props and never reach the rest object, but `loading` does: a
  caller's `loading` replaces `loadingStrategy` on the `<img>`, and the model
  does not carry the `loading` attribute.
- OptimizedImage.WrapperStyle: widths and heights are integers. A fractional
  number such as `80.5` would print as `80.5px`, and that is not modelled.
- JsString.IntToString: prints every integer as plain digits. JavaScript
  switches to exponent form from 10^21 in magnitude (`1e+21px`), and that is
  not modelled.
- Callbacks that arrive after unmount are modelled as the source runs them,
  changing the loader's own state. React's warning about updates to an
  unmounted component is not modelled.
- The set of ignored source files is not modelled: pages, presentation
  components, the contact service, the EmailJS set-up, the OG-image generator
  and the performance audit. They carry no logic of the kind modelled here.
