/**
 * The browser-side WebP helpers: a memoised support flag decided by a probe,
 * the rewrite of an image path to its WebP twin when support is known, and the
 * mapping of an image path into the converter's flat `/images/webp/` folder.
 * The probe itself (an `Image` decoding a data URL) is a parameter.
 */
module WebPSupport {
  import opened Options
  import opened JsString

  /** `path.split('.').pop()?.toLowerCase()`: the lower-cased text after the last '.'. */
  function ExtensionOf(path: string): (r: string)
    ensures '.' !in r
    ensures '.' !in path ==> r == ToLower(path)
    ensures |r| <= |path| && r == ToLower(path[|path| - |r|..])
    ensures '.' in path ==> |r| < |path| && path[|path| - |r| - 1] == '.'
  {
    var tail := AfterLast(path, '.');
    ToLowerKeepsAbsent(tail, '.');
    ToLower(tail)
  }

  /** The extensions both helpers leave alone: none at all, `webp` and `svg`. */
  predicate KeptAsIs(ext: string) {
    ext == "" || ext == "webp" || ext == "svg"
  }

  /** The rewrite case of `getOptimizedImagePath`: support known true, a path, an extension to replace. */
  predicate Rewrites(supported: Option<bool>, path: string) {
    supported == Some(true) && path != "" && !KeptAsIs(ExtensionOf(path))
  }

  /**
   * `getOptimizedImagePath`: the WebP twin of an image path when the browser is
   * known to support WebP. `webPSupported` is passed in; `None` is the
   * undecided `null`. The prefix is `substring(0, lastIndexOf('.'))`, which is
   * empty when the path has no '.'.
   */
  function GetOptimizedImagePath(supported: Option<bool>, path: string): (r: string)
    ensures !Rewrites(supported, path) ==> r == path
    ensures Rewrites(supported, path) ==>
      r == (if '.' in path then path[..LastIndexOf(path, '.')] else "") + ".webp"
  {
    if supported != Some(true) || path == "" then path
    else if KeptAsIs(ExtensionOf(path)) then path
    else Substring(path, 0, LastIndexOf(path, '.')) + ".webp"
  }

  /** The extension of any `stem + ".webp"` is `webp`. */
  lemma WebPSuffixExtension(stem: string)
    ensures ExtensionOf(stem + ".webp") == "webp"
  {
    assert stem + ".webp" == stem + ['.'] + "webp";
    LastIndexOfAppend(stem, '.', "webp");
    assert ToLower("webp") == "webp";
  }

  /** The path changes exactly in the rewrite case: the twin never equals its original. */
  lemma OptimizedPathChangesIff(supported: Option<bool>, path: string)
    ensures GetOptimizedImagePath(supported, path) != path <==> Rewrites(supported, path)
  {
    if Rewrites(supported, path) {
      var r := GetOptimizedImagePath(supported, path);
      WebPSuffixExtension(r[..|r| - 5]);
      assert r == r[..|r| - 5] + ".webp";
    }
  }

  /** Rewriting is idempotent: the twin of a twin is itself. */
  lemma OptimizedPathIdempotent(supported: Option<bool>, path: string)
    ensures var r := GetOptimizedImagePath(supported, path);
            GetOptimizedImagePath(supported, r) == r
  {
    var r := GetOptimizedImagePath(supported, path);
    if Rewrites(supported, path) {
      WebPSuffixExtension(r[..|r| - 5]);
      assert r == r[..|r| - 5] + ".webp";
    }
  }

  /** A dot-free path whose lower-cased text is not `webp` or `svg` is rewritten to the bare `.webp`. */
  lemma OptimizedPathWithoutDot(path: string)
    requires path != "" && '.' !in path
    requires ToLower(path) != "webp" && ToLower(path) != "svg"
    ensures GetOptimizedImagePath(Some(true), path) == ".webp"
  {
  }

  const WebPDir := "/images/webp/"

  /** `originalPath.split('/').pop()?.split('.')[0]`: the last segment, cut at its first '.'. */
  function FileStem(path: string): (r: string)
    ensures '/' !in r && '.' !in r
    ensures StartsWith(AfterLast(path, '/'), r)
    ensures |r| < |AfterLast(path, '/')| ==> AfterLast(path, '/')[|r|] == '.'
  {
    var seg := AfterLast(path, '/');
    var r := BeforeFirst(seg, '.');
    assert forall i :: 0 <= i < |r| ==> r[i] != '/' by {
      forall i | 0 <= i < |r| ensures r[i] != '/' {
        assert r[i] == seg[i];
      }
    }
    r
  }

  /**
   * `generateWebPPath`: "" for an empty path and for the extensions kept as
   * they are; otherwise the file's first-dot stem under the flat WebP folder.
   */
  function GenerateWebPPath(path: string): (r: string)
    ensures r == "" <==> path == "" || KeptAsIs(ExtensionOf(path))
    ensures r != "" ==> r == WebPDir + FileStem(path) + ".webp"
  {
    if path == "" then ""
    else if KeptAsIs(ExtensionOf(path)) then ""
    else WebPDir + FileStem(path) + ".webp"
  }

  /** Directories are dropped: a file maps to the same WebP path wherever it lives. */
  lemma WebPPathIgnoresDirectory(dir: string, name: string)
    requires '/' !in name && '.' in name
    ensures GenerateWebPPath(dir + "/" + name) == GenerateWebPPath(name)
  {
    ExtensionIgnoresDirectory(dir, name);
    FileStemIgnoresDirectory(dir, name);
  }

  lemma ExtensionIgnoresDirectory(dir: string, name: string)
    requires '.' in name
    ensures ExtensionOf(dir + "/" + name) == ExtensionOf(name)
  {
    assert dir + "/" + name == (dir + "/") + name;
    AfterLastOfSuffix(dir + "/", name, '.');
  }

  lemma FileStemIgnoresDirectory(dir: string, name: string)
    requires '/' !in name
    ensures FileStem(dir + "/" + name) == FileStem(name)
  {
    assert dir + "/" + name == dir + ['/'] + name;
    LastIndexOfAppend(dir, '/', name);
  }

  /** Secondary extensions are dropped: everything after the first '.' of the file name goes. */
  lemma WebPPathCutsAtFirstDot(stem: string, rest: string)
    requires stem != "" && '/' !in stem && '.' !in stem && '/' !in rest
    requires !KeptAsIs(ExtensionOf(stem + "." + rest))
    ensures GenerateWebPPath(stem + "." + rest) == WebPDir + stem + ".webp"
  {
    FileStemOfDotted(stem, rest);
  }

  lemma FileStemOfDotted(stem: string, rest: string)
    requires stem != "" && '/' !in stem && '.' !in stem && '/' !in rest
    ensures FileStem(stem + "." + rest) == stem
  {
    var p := stem + "." + rest;
    assert '/' !in p;
    assert AfterLast(p, '/') == p;
    assert p[|stem|] == '.';
  }

  /** An element matched by `[data-webp-bg]`: its attribute value and its inline background. */
  datatype Element = Element(webpBg: string, backgroundImage: string)

  /** What `applyWebPBackgrounds` does to one element: a non-empty attribute becomes its background. */
  function WithWebPBackground(e: Element): (r: Element)
    ensures r.webpBg == e.webpBg
    ensures e.webpBg == "" ==> r == e
    ensures e.webpBg != "" ==> r.backgroundImage == "url('" + e.webpBg + "')"
  {
    if e.webpBg != "" then e.(backgroundImage := "url('" + e.webpBg + "')") else e
  }

  /** `applyWebPBackgrounds`: the `forEach` over the matched elements. */
  method ApplyWebPBackgrounds(elements: array<Element>)
    modifies elements
    ensures forall i :: 0 <= i < elements.Length ==> elements[i] == WithWebPBackground(old(elements[i]))
  {
    for i := 0 to elements.Length
      invariant forall k :: 0 <= k < i ==> elements[k] == WithWebPBackground(old(elements[k]))
      invariant forall k :: i <= k < elements.Length ==> elements[k] == old(elements[k])
    {
      elements[i] := WithWebPBackground(elements[i]);
    }
  }

  /** The module-level `webPSupported` flag and the class list of the document element. */
  class WebPDetector {
    var supported: Option<bool>
    var rootClasses: set<string>

    constructor ()
      ensures supported == None && rootClasses == {}
    {
      supported := None;
      rootClasses := {};
    }

    /**
     * `initWebPSupport`, with `probe` the answer of `checkWebPSupport`: only an
     * undecided flag is set; the class names the outcome, and backgrounds are
     * applied only when WebP is supported.
     */
    method Init(probe: bool, elements: array<Element>)
      modifies this, elements
      ensures old(supported).Some? ==>
        supported == old(supported) && rootClasses == old(rootClasses) && unchanged(elements)
      ensures old(supported).None? ==>
        supported == Some(probe) &&
        rootClasses == old(rootClasses) + {if probe then "webp-support" else "no-webp-support"}
      ensures old(supported).None? && probe ==>
        forall i :: 0 <= i < elements.Length ==> elements[i] == WithWebPBackground(old(elements[i]))
      ensures !(old(supported).None? && probe) ==> unchanged(elements)
    {
      if supported == None {
        supported := Some(probe);
        if probe {
          rootClasses := rootClasses + {"webp-support"};
        } else {
          rootClasses := rootClasses + {"no-webp-support"};
        }
        if probe {
          ApplyWebPBackgrounds(elements);
        }
      }
    }

    /** `getOptimizedImagePath` reading the current flag. */
    function OptimizedImagePath(path: string): (r: string)
      reads this
      ensures supported != Some(true) ==> r == path
      ensures r == GetOptimizedImagePath(supported, path)
      ensures Rewrites(supported, path) ==> r != path && EndsWith(r, ".webp")
    {
      OptimizedPathChangesIff(supported, path);
      GetOptimizedImagePath(supported, path)
    }
  }
}
