/**
 * The bundle-size analyser: a recursive scan of the build folder that
 * records every `.js` and `.css` file with its size and type, a stable
 * descending sort by size, the total, JavaScript and CSS sizes, and the five
 * largest files. The file system is a tree of nodes with their sizes; the
 * JSON and HTML reports and the console output are left out.
 */
module AnalyzeBundle {
  import opened Options
  import opened JsString
  import opened NodePath
  import opened Sequences

  /** What `readdirSync` and `statSync` report for one item. */
  datatype Node = FileNode(name: string, size: nat) | DirNode(name: string, children: seq<Node>)

  /** One entry of the `files` array. */
  datatype BundleFile = BundleFile(path: string, size: nat, formattedSize: Option<string>, fileType: string)

  /**
   * `formatSize` for the one case that needs no floating point: zero bytes
   * is `0 B`. Every other size goes through `Math.log` and `toFixed`, which
   * the model does not reproduce, and gives `None`.
   */
  function FormatSize(bytes: nat): (r: Option<string>)
    ensures r.Some? <==> bytes == 0
    ensures bytes == 0 ==> r.value == "0 B"
  {
    if bytes == 0 then Some("0 B") else None
  }

  /** `/\.(js|css)$/.test(item)`: case-sensitive, on the item's own name. */
  predicate IsBundleName(name: string) {
    EndsWith(name, ".js") || EndsWith(name, ".css")
  }

  /** `path.extname(item).substring(1).toUpperCase()`. */
  function FileType(name: string): string {
    ToUpper(SubstringFrom(ExtName(name), 1))
  }

  /** `path.join(baseDir, item)` below the scan root, whose base is the empty string. */
  function JoinRel(base: string, name: string): string {
    if base == "" then name else Join(base, name)
  }

  function Record(base: string, name: string, size: nat): BundleFile {
    BundleFile(JoinRel(base, name), size, FormatSize(size), FileType(name))
  }

  /** What `scanDirectory(dir, baseDir)` pushes, in `forEach` order. */
  function Scanned(base: string, items: seq<Node>): seq<BundleFile>
    decreases items
  {
    if items == [] then [] else ScannedNode(base, items[0]) + Scanned(base, items[1..])
  }

  /** One item: a directory is scanned below its relative path, a matching file is recorded. */
  function ScannedNode(base: string, item: Node): seq<BundleFile>
    decreases item
  {
    match item
    case DirNode(name, children) => Scanned(JoinRel(base, name), children)
    case FileNode(name, size) => if IsBundleName(name) then [Record(base, name, size)] else []
  }

  lemma {:induction false} ScannedAppend(base: string, items: seq<Node>, item: Node)
    ensures Scanned(base, items + [item]) == Scanned(base, items) + ScannedNode(base, item)
    decreases items
  {
    if items == [] {
      assert [item][1..] == [];
    } else {
      assert (items + [item])[1..] == items[1..] + [item];
      ScannedAppend(base, items[1..], item);
    }
  }

  lemma ScannedPrefix(base: string, items: seq<Node>, i: nat)
    requires i < |items|
    ensures Scanned(base, items[..i + 1]) == Scanned(base, items[..i]) + ScannedNode(base, items[i])
  {
    assert items[..i + 1] == items[..i] + [items[i]];
    ScannedAppend(base, items[..i], items[i]);
  }

  /** No file is a bare `.js` or `.css` dot-file, whose `extname` is empty. */
  predicate NoBareDotFiles(items: seq<Node>)
    decreases items
  {
    forall i :: 0 <= i < |items| ==> NodeNoBareDotFile(items[i])
  }

  predicate NodeNoBareDotFile(item: Node)
    decreases item
  {
    match item
    case DirNode(_, children) => NoBareDotFiles(children)
    case FileNode(name, _) => name != ".js" && name != ".css"
  }

  /** The extension of `stem + "." + tail` for a non-empty stem and a dot-free tail, read from its end. */
  lemma ExtNameOfSuffix(name: string, ext: string)
    requires |ext| >= 2 && ext[0] == '.' && '.' !in ext[1..]
    requires EndsWith(name, ext) && |name| > |ext|
    ensures ExtName(name) == ext
  {
    var stem := name[..|name| - |ext|];
    var tail := ext[1..];
    assert name == stem + "." + tail;
    ExtNameOfStem(stem, tail);
  }

  /** A recorded `x.js` is of type `JS`. */
  lemma JsType(name: string)
    requires EndsWith(name, ".js") && name != ".js"
    ensures FileType(name) == "JS"
  {
    assert |name| > 3;
    ExtNameOfSuffix(name, ".js");
    assert SubstringFrom(".js", 1) == "js";
    assert ToUpper("js") == "JS";
  }

  /** A recorded `x.css` is of type `CSS`. */
  lemma CssType(name: string)
    requires EndsWith(name, ".css") && name != ".css"
    ensures FileType(name) == "CSS"
  {
    assert |name| > 4;
    ExtNameOfSuffix(name, ".css");
    assert SubstringFrom(".css", 1) == "css";
    assert ToUpper("css") == "CSS";
  }

  /** Every recorded file has type `JS` or `CSS` unless it is a bare dot-file. */
  lemma {:induction false} ScannedTypes(base: string, items: seq<Node>)
    requires NoBareDotFiles(items)
    ensures forall f :: f in Scanned(base, items) ==> f.fileType == "JS" || f.fileType == "CSS"
    decreases items
  {
    if items != [] {
      assert NodeNoBareDotFile(items[0]);
      ScannedNodeTypes(base, items[0]);
      ScannedTypes(base, items[1..]);
    }
  }

  lemma {:induction false} ScannedNodeTypes(base: string, item: Node)
    requires NodeNoBareDotFile(item)
    ensures forall f :: f in ScannedNode(base, item) ==> f.fileType == "JS" || f.fileType == "CSS"
    decreases item
  {
    match item
    case DirNode(name, children) =>
      ScannedTypes(JoinRel(base, name), children);
    case FileNode(name, size) =>
      if EndsWith(name, ".js") {
        JsType(name);
      } else if EndsWith(name, ".css") {
        CssType(name);
      }
  }

  /** Only `.js` and `.css` files are recorded, each with the formatted text of its size. */
  lemma {:induction false} ScannedMatch(base: string, items: seq<Node>)
    ensures forall f :: f in Scanned(base, items) ==>
      IsBundleName(f.path) && f.formattedSize == FormatSize(f.size)
    decreases items
  {
    if items != [] {
      ScannedNodeMatch(base, items[0]);
      ScannedMatch(base, items[1..]);
    }
  }

  lemma {:induction false} ScannedNodeMatch(base: string, item: Node)
    ensures forall f :: f in ScannedNode(base, item) ==>
      IsBundleName(f.path) && f.formattedSize == FormatSize(f.size)
    decreases item
  {
    match item
    case DirNode(name, children) =>
      ScannedMatch(JoinRel(base, name), children);
    case FileNode(name, size) =>
      if EndsWith(name, ".js") {
        JoinRelEndsWith(base, name, ".js");
      } else if EndsWith(name, ".css") {
        JoinRelEndsWith(base, name, ".css");
      }
  }

  /** A joined path ends with whatever its last item ends with. */
  lemma JoinRelEndsWith(base: string, name: string, ext: string)
    requires EndsWith(name, ext)
    ensures EndsWith(JoinRel(base, name), ext)
  {
    if base != "" {
      EndsWithAppend(base + "/", name, ext);
      assert JoinRel(base, name) == (base + "/") + name;
    }
  }

  lemma EndsWithAppend(q: string, name: string, ext: string)
    requires EndsWith(name, ext)
    ensures EndsWith(q + name, ext)
  {
    var p := q + name;
    forall k | 0 <= k < |ext|
      ensures p[|p| - |ext|..][k] == ext[k]
    {
      assert p[|p| - |ext| + k] == name[|name| - |ext| + k];
      assert name[|name| - |ext|..][k] == ext[k];
    }
  }

  /** `(a, b) => b.size - a.size` leaves `x` ahead of every later element of no greater size. */
  function Insert(x: BundleFile, s: seq<BundleFile>): seq<BundleFile>
    decreases s
  {
    if s == [] || s[0].size <= x.size then [x] + s else [s[0]] + Insert(x, s[1..])
  }

  /**
   * `files.sort((a, b) => b.size - a.size)`: `Array.prototype.sort` is
   * stable, so this is a stable sort by non-increasing size, written as an
   * insertion sort from the back.
   */
  function SortBySize(s: seq<BundleFile>): seq<BundleFile>
    decreases s
  {
    if s == [] then [] else Insert(s[0], SortBySize(s[1..]))
  }

  predicate SortedBySize(s: seq<BundleFile>) {
    forall i, j :: 0 <= i < j < |s| ==> s[i].size >= s[j].size
  }

  /** The files of a given size, in their relative order. */
  function OfSize(s: seq<BundleFile>, n: nat): seq<BundleFile>
    decreases s
  {
    if s == [] then [] else (if s[0].size == n then [s[0]] else []) + OfSize(s[1..], n)
  }

  function Sum(s: seq<BundleFile>): nat
    decreases s
  {
    if s == [] then 0 else s[0].size + Sum(s[1..])
  }

  /** `files.filter(file => file.type === t).reduce((sum, file) => sum + file.size, 0)`. */
  function SumOfType(s: seq<BundleFile>, t: string): nat
    decreases s
  {
    if s == [] then 0 else (if s[0].fileType == t then s[0].size else 0) + SumOfType(s[1..], t)
  }

  lemma {:induction false} InsertFacts(x: BundleFile, s: seq<BundleFile>)
    ensures multiset(Insert(x, s)) == multiset(s) + multiset{x}
    ensures Sum(Insert(x, s)) == x.size + Sum(s)
    decreases s
  {
    if s != [] && s[0].size > x.size {
      InsertFacts(x, s[1..]);
      assert s == [s[0]] + s[1..];
      var r := Insert(x, s);
      assert r[1..] == Insert(x, s[1..]);
    }
  }

  lemma {:induction false} InsertSorted(x: BundleFile, s: seq<BundleFile>)
    requires SortedBySize(s)
    ensures SortedBySize(Insert(x, s))
    ensures |Insert(x, s)| == |s| + 1
    ensures Insert(x, s)[0] == x || Insert(x, s)[0] == s[0]
    decreases s
  {
    if s != [] && s[0].size > x.size {
      InsertSorted(x, s[1..]);
      InsertBounded(x, s[1..], s[0].size);
      var r := Insert(x, s);
      var t := Insert(x, s[1..]);
      assert r == [s[0]] + t;
      forall i, j | 0 <= i < j < |r|
        ensures r[i].size >= r[j].size
      {
        assert r[j] == t[j - 1];
        if i > 0 {
          assert r[i] == t[i - 1];
        }
      }
    }
  }

  /** Inserting below a bound that every element respects keeps the bound. */
  lemma {:induction false} InsertBounded(x: BundleFile, s: seq<BundleFile>, b: nat)
    requires x.size <= b
    requires forall k :: 0 <= k < |s| ==> s[k].size <= b
    ensures |Insert(x, s)| == |s| + 1
    ensures forall k :: 0 <= k < |Insert(x, s)| ==> Insert(x, s)[k].size <= b
    decreases s
  {
    if s != [] && s[0].size > x.size {
      InsertBounded(x, s[1..], b);
      assert Insert(x, s) == [s[0]] + Insert(x, s[1..]);
    }
  }

  /** The sort leaves the files in non-increasing order of size. */
  lemma {:induction false} SortSorted(s: seq<BundleFile>)
    ensures SortedBySize(SortBySize(s))
    decreases s
  {
    if s != [] {
      SortSorted(s[1..]);
      InsertSorted(s[0], SortBySize(s[1..]));
    }
  }

  /** The sort is a permutation, so it keeps the total. */
  lemma {:induction false} SortPermutes(s: seq<BundleFile>)
    ensures multiset(SortBySize(s)) == multiset(s)
    ensures Sum(SortBySize(s)) == Sum(s)
    decreases s
  {
    if s != [] {
      SortPermutes(s[1..]);
      InsertFacts(s[0], SortBySize(s[1..]));
      assert s == [s[0]] + s[1..];
    }
  }

  lemma {:induction false} InsertOfSize(x: BundleFile, s: seq<BundleFile>, n: nat)
    ensures OfSize(Insert(x, s), n) == (if x.size == n then [x] else []) + OfSize(s, n)
    decreases s
  {
    if s != [] && s[0].size > x.size {
      var t := Insert(x, s[1..]);
      InsertOfSize(x, s[1..], n);
      OfSizeCons(s[0], t, n);
      OfSizeCons(s[0], s[1..], n);
      assert [s[0]] + s[1..] == s;
      if x.size == n {
        assert OfSize(Insert(x, s), n) == [] + OfSize(t, n);
      } else {
        assert OfSize(t, n) == [] + OfSize(s[1..], n);
      }
    } else {
      OfSizeCons(x, s, n);
    }
  }

  lemma OfSizeCons(y: BundleFile, t: seq<BundleFile>, n: nat)
    ensures OfSize([y] + t, n) == (if y.size == n then [y] else []) + OfSize(t, n)
  {
    assert ([y] + t)[1..] == t;
  }

  /** The sort is stable: files of equal size keep the order in which they were scanned. */
  lemma {:induction false} SortStable(s: seq<BundleFile>, n: nat)
    ensures OfSize(SortBySize(s), n) == OfSize(s, n)
    decreases s
  {
    if s != [] {
      SortStable(s[1..], n);
      InsertOfSize(s[0], SortBySize(s[1..]), n);
    }
  }

  /** With only JS and CSS files, the two partial totals add up to the total. */
  lemma {:induction false} TotalsSplit(s: seq<BundleFile>)
    requires forall f :: f in s ==> f.fileType == "JS" || f.fileType == "CSS"
    ensures Sum(s) == SumOfType(s, "JS") + SumOfType(s, "CSS")
    decreases s
  {
    if s != [] {
      assert s[0] in s;
      assert forall f :: f in s[1..] ==> f in s;
      TotalsSplit(s[1..]);
    }
  }

  function Min(a: nat, b: nat): nat {
    if a <= b then a else b
  }

  /** `files.slice(0, 5)`. */
  function Top5(s: seq<BundleFile>): seq<BundleFile> {
    s[..Min(5, |s|)]
  }

  /** On the sorted list the top five are the largest: none of the rest is bigger than any of them. */
  lemma TopAreLargest(s: seq<BundleFile>)
    requires SortedBySize(s)
    ensures |Top5(s)| == Min(5, |s|)
    ensures forall i, j :: 0 <= i < |Top5(s)| <= j < |s| ==> Top5(s)[i].size >= s[j].size
  {
  }

  /** The figures of the report. */
  datatype Report = Report(
    totalSize: nat,
    totalSizeFormatted: Option<string>,
    totalJsSize: nat,
    totalCssSize: nat,
    files: seq<BundleFile>,
    top: seq<BundleFile>)

  function MakeReport(files: seq<BundleFile>): Report {
    Report(Sum(files), FormatSize(Sum(files)), SumOfType(files, "JS"), SumOfType(files, "CSS"), files, Top5(files))
  }

  /** The accumulating state of `analyzeBundleSize`: the `files` array the scan pushes into. */
  class BundleAnalyzer {
    var files: seq<BundleFile>

    constructor()
      ensures files == []
    {
      files := [];
    }

    /** `scanDirectory(dir, baseDir)`: pushes the matching files below `items`. */
    method ScanDirectory(base: string, items: seq<Node>)
      modifies this
      ensures files == old(files) + Scanned(base, items)
      decreases items, 1
    {
      ghost var start := files;
      for i := 0 to |items|
        invariant files == start + Scanned(base, items[..i])
      {
        var item := items[i];
        ghost var done := Scanned(base, items[..i]);
        ScannedPrefix(base, items, i);
        AppendAssoc(start, done, ScannedNode(base, item));
        VisitItem(base, item);
      }
      assert items[..|items|] == items;
    }

    /** The `forEach` callback for one item. */
    method VisitItem(base: string, item: Node)
      modifies this
      ensures files == old(files) + ScannedNode(base, item)
      decreases item, 0
    {
      match item
      case DirNode(name, children) =>
        ScanDirectory(JoinRel(base, name), children);
      case FileNode(name, size) =>
        if IsBundleName(name) {
          files := files + [Record(base, name, size)];
        }
    }

    /** `files.sort((a, b) => b.size - a.size)`, in place. */
    method SortFiles()
      modifies this
      ensures files == SortBySize(old(files))
      ensures SortedBySize(files)
      ensures multiset(files) == multiset(old(files))
    {
      SortSorted(files);
      SortPermutes(files);
      files := SortBySize(files);
    }

    /** `analyzeBundleSize` without its output: scan from the build folder, sort, total. */
    method Analyze(dist: seq<Node>) returns (report: Report)
      modifies this
      ensures files == SortBySize(Scanned("", dist))
      ensures report == MakeReport(files)
      ensures SortedBySize(report.files)
      ensures report.totalSize == Sum(Scanned("", dist))
      ensures NoBareDotFiles(dist) ==> report.totalSize == report.totalJsSize + report.totalCssSize
    {
      files := [];
      ScanDirectory("", dist);
      assert files == Scanned("", dist);
      SortFiles();
      SortPermutes(Scanned("", dist));
      report := MakeReport(files);
      if NoBareDotFiles(dist) {
        ScannedTypes("", dist);
        assert forall f :: f in files ==> f in multiset(Scanned("", dist));
        TotalsSplit(files);
      }
    }
  }
}
