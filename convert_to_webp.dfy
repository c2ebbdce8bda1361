/**
 * The WebP conversion script: the recursive search for raster images under
 * the public folder, the naming of each WebP output and of its responsive
 * variants, the rule that skips up-to-date outputs, and the sequential loop
 * that keeps going after a file fails. The file system, `sharp` and the
 * clock are replaced by a directory tree and per-file facts.
 */
module ConvertToWebP {
  import opened JsString
  import opened NodePath
  import opened Sequences

  const ImageExtensions: seq<string> := [".jpg", ".jpeg", ".png", ".gif"]

  /** What `readdirSync` and `statSync` report: a file, or a directory with its listing. */
  datatype Entry = FileEntry(name: string) | DirEntry(name: string, children: seq<Entry>)

  /** Names as `readdirSync` returns them: not empty and holding no '/'. */
  predicate WellNamed(entries: seq<Entry>)
    decreases entries
  {
    forall i :: 0 <= i < |entries| ==> EntryWellNamed(entries[i])
  }

  predicate EntryWellNamed(e: Entry)
    decreases e
  {
    e.name != "" && '/' !in e.name && (e.DirEntry? ==> WellNamed(e.children))
  }

  /** The input filter: the lower-cased `extname` is one of the four raster extensions. */
  predicate IsImageName(name: string) {
    ToLower(ExtName(name)) in ImageExtensions
  }

  /** The descent guard, a substring test on the whole path (so `.github` is excluded too). */
  predicate Descends(e: Entry, path: string) {
    e.DirEntry? && !Includes(path, "node_modules") && !Includes(path, ".git")
  }

  /** What `findImageFiles(dir)` collects from a listing, in `forEach` order. */
  function ImageFiles(dir: string, entries: seq<Entry>): seq<string>
    decreases entries
  {
    if entries == [] then [] else EntryFiles(dir, entries[0]) + ImageFiles(dir, entries[1..])
  }

  /**
   * One entry: a directory that passes the guard is searched; anything else,
   * an excluded directory included, is kept when its name has an image extension.
   */
  function EntryFiles(dir: string, e: Entry): seq<string>
    decreases e
  {
    var path := Join(dir, e.name);
    if Descends(e, path) then ImageFiles(path, e.children)
    else if IsImageName(e.name) then [path]
    else []
  }

  lemma {:induction false} ImageFilesAppend(dir: string, entries: seq<Entry>, e: Entry)
    ensures ImageFiles(dir, entries + [e]) == ImageFiles(dir, entries) + EntryFiles(dir, e)
    decreases entries
  {
    if entries == [] {
      assert [e][1..] == [];
    } else {
      assert (entries + [e])[1..] == entries[1..] + [e];
      ImageFilesAppend(dir, entries[1..], e);
    }
  }

  lemma ImageFilesPrefix(dir: string, entries: seq<Entry>, i: nat)
    requires i < |entries|
    ensures ImageFiles(dir, entries[..i + 1]) == ImageFiles(dir, entries[..i]) + EntryFiles(dir, entries[i])
  {
    assert entries[..i + 1] == entries[..i] + [entries[i]];
    ImageFilesAppend(dir, entries[..i], entries[i]);
  }

  /**
   * `findImageFiles(dir, fileList)`: pushes every image found below `dir`
   * onto the shared accumulator, which is threaded through the recursion.
   */
  method FindImageFiles(dir: string, entries: seq<Entry>, fileList: seq<string>) returns (list: seq<string>)
    ensures list == fileList + ImageFiles(dir, entries)
    decreases entries, 1
  {
    list := fileList;
    for i := 0 to |entries|
      invariant list == fileList + ImageFiles(dir, entries[..i])
    {
      var e := entries[i];
      ghost var done := ImageFiles(dir, entries[..i]);
      ImageFilesPrefix(dir, entries, i);
      AppendAssoc(fileList, done, EntryFiles(dir, e));
      list := VisitEntry(dir, e, list);
    }
    assert entries[..|entries|] == entries;
  }

  /** The body of the `forEach` callback for one entry. */
  method VisitEntry(dir: string, e: Entry, fileList: seq<string>) returns (list: seq<string>)
    ensures list == fileList + EntryFiles(dir, e)
    decreases e, 0
  {
    var path := Join(dir, e.name);
    if Descends(e, path) {
      list := FindImageFiles(path, e.children, fileList);
    } else if IsImageName(e.name) {
      list := fileList + [path];
    } else {
      list := fileList;
    }
  }

  /** Every collected path lies below the searched directory. */
  lemma {:induction false} CollectedUnder(dir: string, entries: seq<Entry>)
    ensures forall p :: p in ImageFiles(dir, entries) ==> StartsWith(p, dir + "/")
    decreases entries
  {
    if entries != [] {
      var e := entries[0];
      CollectedUnder(dir, entries[1..]);
      var path := Join(dir, e.name);
      if Descends(e, path) {
        CollectedUnder(path, e.children);
        forall p | p in ImageFiles(path, e.children) ensures StartsWith(p, dir + "/") {
          assert p[..|dir| + 1] == p[..|path| + 1][..|dir| + 1];
        }
      }
    }
  }

  /** Every collected path ends in a name with one of the four image extensions. */
  lemma {:induction false} CollectedAreImages(dir: string, entries: seq<Entry>)
    requires WellNamed(entries)
    ensures forall p :: p in ImageFiles(dir, entries) ==> IsImageName(AfterLast(p, '/'))
    decreases entries
  {
    if entries != [] {
      var e := entries[0];
      assert EntryWellNamed(e);
      CollectedAreImages(dir, entries[1..]);
      var path := Join(dir, e.name);
      if Descends(e, path) {
        CollectedAreImages(path, e.children);
      } else if IsImageName(e.name) {
        assert path == dir + ['/'] + e.name;
        LastIndexOfAppend(dir, '/', e.name);
      }
    }
  }

  /** An excluded directory is never searched; only its own name can be collected. */
  lemma ExcludedDirectoryNotSearched(dir: string, name: string, children: seq<Entry>)
    requires Includes(Join(dir, name), "node_modules") || Includes(Join(dir, name), ".git")
    ensures EntryFiles(dir, DirEntry(name, children)) ==
      if IsImageName(name) then [Join(dir, name)] else []
  {
  }

  /** Where the converter writes: `public/images/webp`, inside the searched tree. */
  function TargetDir(root: string): string {
    root + "/images/webp"
  }

  predicate Under(root: string, p: string) {
    StartsWith(p, root + "/")
  }

  /** `path.relative(SOURCE_DIR, filePath)` for a path below the source folder. */
  function RelativePath(root: string, p: string): string
    requires Under(root, p)
  {
    p[|root| + 1..]
  }

  /** `path.dirname` of a relative path: `.` when it has no '/'. */
  function RelativeDir(rel: string): string {
    if '/' in rel then rel[..LastIndexOf(rel, '/')] else "."
  }

  /** `path.join(TARGET_DIR, relativeDir)`, where joining `.` changes nothing. */
  function TargetSubDir(root: string, p: string): string
    requires Under(root, p)
  {
    var relDir := RelativeDir(RelativePath(root, p));
    if relDir == "." then TargetDir(root) else Join(TargetDir(root), relDir)
  }

  /** The file name without its last extension: `path.basename(filePath, path.extname(filePath))`. */
  function FileName(root: string, p: string): (r: string)
    requires Under(root, p)
    ensures '/' !in r
  {
    var seg := AfterLast(RelativePath(root, p), '/');
    var r := StripExt(seg);
    assert r == seg[..|r|];
    r
  }

  function OutputWith(root: string, p: string, suffix: string): string
    requires Under(root, p)
  {
    Join(TargetSubDir(root, p), FileName(root, p) + suffix)
  }

  function OutputPath(root: string, p: string): string requires Under(root, p) { OutputWith(root, p, ".webp") }
  function MediumPath(root: string, p: string): string requires Under(root, p) { OutputWith(root, p, "_w_800.webp") }
  function SmallPath(root: string, p: string): string requires Under(root, p) { OutputWith(root, p, "_w_480.webp") }

  /** A file directly in the source folder is written directly into the target folder. */
  lemma OutputPathTopLevel(root: string, name: string)
    requires '/' !in name
    ensures Under(root, root + "/" + name)
    ensures OutputPath(root, root + "/" + name) == TargetDir(root) + "/" + StripExt(name) + ".webp"
  {
    var p := root + "/" + name;
    assert p[..|root| + 1] == root + "/";
    assert RelativePath(root, p) == name;
    assert RelativeDir(name) == ".";
    assert TargetSubDir(root, p) == TargetDir(root);
    assert AfterLast(name, '/') == name;
    assert FileName(root, p) == StripExt(name);
  }

  /** A file in a sub-directory keeps that sub-directory below the target folder. */
  lemma OutputPathKeepsSubdirectory(root: string, dir: string, name: string)
    requires '/' !in name && dir != "" && dir != "."
    ensures Under(root, root + "/" + dir + "/" + name)
    ensures OutputPath(root, root + "/" + dir + "/" + name) ==
      TargetDir(root) + "/" + dir + "/" + StripExt(name) + ".webp"
  {
    var p := root + "/" + dir + "/" + name;
    NestedNames(root, dir, name);
    var x := TargetDir(root) + "/" + dir + "/";
    assert OutputPath(root, p) == x + (StripExt(name) + ".webp");
    AppendAssoc(x, StripExt(name), ".webp");
  }

  lemma NestedNames(root: string, dir: string, name: string)
    requires '/' !in name && dir != "" && dir != "."
    ensures Under(root, root + "/" + dir + "/" + name)
    ensures FileName(root, root + "/" + dir + "/" + name) == StripExt(name)
    ensures TargetSubDir(root, root + "/" + dir + "/" + name) == TargetDir(root) + "/" + dir
  {
    var p := root + "/" + dir + "/" + name;
    NestedRelativePath(root, dir + "/" + name);
    assert p == root + "/" + (dir + "/" + name);
    NestedSplit(dir, name);
  }

  lemma NestedRelativePath(root: string, rel: string)
    ensures Under(root, root + "/" + rel)
    ensures RelativePath(root, root + "/" + rel) == rel
  {
    var p := root + "/" + rel;
    assert p[..|root| + 1] == root + "/";
  }

  lemma NestedSplit(dir: string, name: string)
    requires '/' !in name && dir != "" && dir != "."
    ensures RelativeDir(dir + "/" + name) == dir
    ensures AfterLast(dir + "/" + name, '/') == name
  {
    var rel := dir + "/" + name;
    assert rel == dir + ['/'] + name;
    LastIndexOfAppend(dir, '/', name);
    assert rel[..|dir|] == dir;
  }

  /** The outcome that `fs.existsSync`, `statSync` and `sharp` would produce for one file. */
  datatype Failure = NoFailure | FailBeforeCheck | FailAtStep(k: nat)

  /**
   * The facts about one source file: its modification time, the width `sharp`
   * reports, and where, if anywhere, an operation throws.
   */
  datatype FileFacts = FileFacts(
    sourceMtime: int,
    width: int,
    failure: Failure)

  /**
   * The part of the file system the conversions share: the files that exist
   * below the target folder with their modification times, and the clock that
   * stamps the next write.
   */
  datatype Disk = Disk(mtimes: map<string, int>, clock: int)

  /** The `sharp` operations of one conversion, in order. */
  datatype Step = WriteWebP(path: string) | ReadMetadata

  datatype Outcome = Skipped | Converted(written: seq<string>) | Failed(written: seq<string>)

  /** The skip rule: the output exists and is strictly newer than its source. */
  predicate UpToDate(d: Disk, output: string, f: FileFacts) {
    output in d.mtimes && d.mtimes[output] > f.sourceMtime
  }

  /** Completed writes create or replace their files, each stamped by the clock, which then advances. */
  function Store(d: Disk, ws: seq<string>): (r: Disk)
    ensures r.clock == d.clock + |ws|
    decreases |ws|
  {
    if ws == [] then d else Store(Disk(d.mtimes[ws[0] := d.clock], d.clock + 1), ws[1..])
  }

  /** After the writes, each written file exists, no older than the clock they started from; every other file is as it was. */
  lemma {:induction false} StoreFacts(d: Disk, ws: seq<string>)
    ensures forall w :: w in ws ==> w in Store(d, ws).mtimes && Store(d, ws).mtimes[w] >= d.clock
    ensures forall q :: q !in ws ==> (q in Store(d, ws).mtimes <==> q in d.mtimes)
    ensures forall q :: q !in ws && q in d.mtimes ==> Store(d, ws).mtimes[q] == d.mtimes[q]
    decreases |ws|
  {
    if ws != [] {
      var d1 := Disk(d.mtimes[ws[0] := d.clock], d.clock + 1);
      StoreFacts(d1, ws[1..]);
      assert forall q :: q in ws ==> q == ws[0] || q in ws[1..];
    }
  }

  /** The full-size output, then the metadata, then the 800 and 480 variants for images wider than 800. */
  function Plan(output: string, medium: string, small: string, width: int): seq<Step> {
    [WriteWebP(output), ReadMetadata] + (if width > 800 then [WriteWebP(medium), WriteWebP(small)] else [])
  }

  /** The paths of the completed writes among some steps. */
  function Written(steps: seq<Step>): seq<string> {
    if steps == [] then []
    else (if steps[0].WriteWebP? then [steps[0].path] else []) + Written(steps[1..])
  }

  /**
   * `convertToWebP(filePath)`: every exception is caught, so a failure only
   * ends this file, after the writes that completed before it.
   */
  function ConvertOne(root: string, p: string, f: FileFacts, d: Disk): (r: Outcome)
    requires Under(root, p)
  {
    RunJob(JobOf(root, p, f), d)
  }

  /** One pending conversion: the three output names of a source and the facts about it. */
  datatype Job = Job(output: string, medium: string, small: string, facts: FileFacts)

  function JobOf(root: string, p: string, f: FileFacts): Job
    requires Under(root, p)
  {
    Job(OutputPath(root, p), MediumPath(root, p), SmallPath(root, p), f)
  }

  function RunJob(j: Job, d: Disk): Outcome {
    Attempt(j.output, j.medium, j.small, j.facts, d)
  }

  /** One conversion, given the three output names of its source and the disk it finds. */
  function Attempt(output: string, medium: string, small: string, f: FileFacts, d: Disk): Outcome {
    var steps := Plan(output, medium, small, f.width);
    if f.failure == FailBeforeCheck then Failed([])
    else if UpToDate(d, output, f) then Skipped
    else if f.failure.FailAtStep? && f.failure.k < |steps| then Failed(Written(steps[..f.failure.k]))
    else Converted(Written(steps))
  }

  lemma WrittenCons(s: Step, rest: seq<Step>)
    ensures Written([s] + rest) == (if s.WriteWebP? then [s.path] else []) + Written(rest)
  {
    assert ([s] + rest)[1..] == rest;
  }

  lemma PlanWritten(output: string, medium: string, small: string, width: int)
    ensures Written(Plan(output, medium, small, width)) ==
      [output] + (if width > 800 then [medium, small] else [])
  {
    var steps := Plan(output, medium, small, width);
    var tail := if width > 800 then [WriteWebP(medium), WriteWebP(small)] else [];
    assert steps == [WriteWebP(output)] + ([ReadMetadata] + tail);
    WrittenCons(WriteWebP(output), [ReadMetadata] + tail);
    WrittenCons(ReadMetadata, tail);
    if width > 800 {
      WrittenCons(WriteWebP(medium), [WriteWebP(small)]);
      WrittenCons(WriteWebP(small), []);
    }
  }

  lemma {:induction false} WrittenPrefix(steps: seq<Step>, k: nat)
    requires k <= |steps|
    ensures forall w :: w in Written(steps[..k]) ==> w in Written(steps)
    decreases k
  {
    if k > 0 {
      assert steps[..k][1..] == steps[1..][..k - 1];
      WrittenPrefix(steps[1..], k - 1);
    }
  }

  /** A completed conversion writes the full-size output, plus both variants exactly when the width exceeds 800. */
  lemma ConvertedOutputs(root: string, p: string, f: FileFacts, d: Disk)
    requires Under(root, p)
    requires ConvertOne(root, p, f, d).Converted?
    ensures !UpToDate(d, OutputPath(root, p), f)
    ensures ConvertOne(root, p, f, d).written ==
      [OutputPath(root, p)] + (if f.width > 800 then [MediumPath(root, p), SmallPath(root, p)] else [])
  {
    PlanWritten(OutputPath(root, p), MediumPath(root, p), SmallPath(root, p), f.width);
  }

  /** Only a file whose output is up to date is skipped. */
  lemma SkippedIff(root: string, p: string, f: FileFacts, d: Disk)
    requires Under(root, p)
    ensures ConvertOne(root, p, f, d) == Skipped <==>
      f.failure != FailBeforeCheck && UpToDate(d, OutputPath(root, p), f)
  {
  }

  /** Everything a conversion writes, whatever its outcome. */
  function AllWritten(o: Outcome): seq<string> {
    match o
    case Skipped => []
    case Converted(ws) => ws
    case Failed(ws) => ws
  }

  lemma AttemptWritesOutputs(output: string, medium: string, small: string, f: FileFacts, d: Disk)
    ensures forall w :: w in AllWritten(Attempt(output, medium, small, f, d)) ==>
      w == output || w == medium || w == small
  {
    var steps := Plan(output, medium, small, f.width);
    PlanWritten(output, medium, small, f.width);
    if f.failure.FailAtStep? && f.failure.k < |steps| {
      WrittenPrefix(steps, f.failure.k);
    }
  }

  /** Each written path is one of the three output names of its source. */
  lemma WrittenAreOutputs(root: string, p: string, f: FileFacts, d: Disk)
    requires Under(root, p)
    ensures forall w :: w in AllWritten(ConvertOne(root, p, f, d)) ==>
      w == OutputPath(root, p) || w == MediumPath(root, p) || w == SmallPath(root, p)
  {
    AttemptWritesOutputs(OutputPath(root, p), MediumPath(root, p), SmallPath(root, p), f, d);
  }

  /** No `.webp` name passes the input filter. */
  lemma WebPNameNotImage(front: string)
    ensures !IsImageName(front + ".webp")
  {
    WebPNameExtension(front);
    if front == "" {
      NoExtensionNotImage();
    } else {
      WebPExtensionNotImage();
    }
  }

  lemma NoExtensionNotImage()
    ensures ToLower("") !in ImageExtensions
  {
    assert |ToLower("")| == 0;
  }

  lemma WebPExtensionNotImage()
    ensures ToLower(".webp") !in ImageExtensions
  {
    ToLowerOfLower(".webp");
    assert ".webp"[1] != ".jpeg"[1];
  }

  /** The extension of `front + ".webp"`: none for the dot-file `.webp` itself, `.webp` otherwise. */
  lemma WebPNameExtension(front: string)
    ensures ExtName(front + ".webp") == if front == "" then "" else ".webp"
  {
    if front == "" {
      assert front + ".webp" == ".webp";
      DotFileExtension();
    } else {
      StemWebPExtension(front);
    }
  }

  lemma StemWebPExtension(front: string)
    requires front != ""
    ensures ExtName(front + ".webp") == ".webp"
  {
    ExtNameOfStem(front, "webp");
    AppendAssoc(front, ".", "webp");
    assert "." + "webp" == ".webp";
  }

  /** `.webp` alone is a dot-file without extension. */
  lemma DotFileExtension()
    ensures ExtName(".webp") == ""
  {
    LastIndexOfAppend("", '.', "webp");
    assert "" + ['.'] + "webp" == ".webp";
  }

  /** The last segment of an output path is the file name and its suffix. */
  lemma OutputSegment(root: string, p: string, suffix: string)
    requires Under(root, p) && '/' !in suffix
    ensures AfterLast(OutputWith(root, p, suffix), '/') == FileName(root, p) + suffix
  {
    var name := FileName(root, p) + suffix;
    assert '/' !in name;
    assert OutputWith(root, p, suffix) == TargetSubDir(root, p) + ['/'] + name;
    LastIndexOfAppend(TargetSubDir(root, p), '/', name);
  }

  /** An output name whose suffix is `tag + ".webp"` does not pass the input filter. */
  lemma OutputNotImage(root: string, p: string, suffix: string, tag: string)
    requires Under(root, p) && suffix == tag + ".webp" && '/' !in tag
    ensures !IsImageName(AfterLast(OutputWith(root, p, suffix), '/'))
  {
    OutputSegment(root, p, suffix);
    SuffixedNotImage(FileName(root, p), suffix, tag);
  }

  lemma SuffixedNotImage(stem: string, suffix: string, tag: string)
    requires suffix == tag + ".webp"
    ensures !IsImageName(stem + suffix)
  {
    assert stem + suffix == (stem + tag) + ".webp";
    WebPNameNotImage(stem + tag);
  }

  /** Outputs are `.webp` files, so a later search of the source tree never collects them. */
  lemma OutputsNeverRecollected(root: string, p: string, f: FileFacts, d: Disk)
    requires Under(root, p)
    ensures forall w :: w in AllWritten(ConvertOne(root, p, f, d)) ==> !IsImageName(AfterLast(w, '/'))
  {
    assert ".webp" == "" + ".webp" && "_w_800.webp" == "_w_800" + ".webp" && "_w_480.webp" == "_w_480" + ".webp";
    assert '/' !in "_w_800" && '/' !in "_w_480";
    WrittenAreOutputs(root, p, f, d);
    forall w | w in AllWritten(ConvertOne(root, p, f, d))
      ensures !IsImageName(AfterLast(w, '/'))
    {
      if w == OutputPath(root, p) {
        OutputNotImage(root, p, ".webp", "");
      } else if w == MediumPath(root, p) {
        OutputNotImage(root, p, "_w_800.webp", "_w_800");
      } else {
        OutputNotImage(root, p, "_w_480.webp", "_w_480");
      }
    }
  }

  /** The converter never writes a `_w_1200` variant, although the srcset names one. */
  lemma NeverWritesW1200(root: string, p: string, f: FileFacts, d: Disk)
    requires Under(root, p)
    ensures OutputWith(root, p, "_w_1200.webp") !in AllWritten(ConvertOne(root, p, f, d))
  {
    WrittenAreOutputs(root, p, f, d);
    var d := TargetSubDir(root, p);
    var n := FileName(root, p);
    assert |OutputWith(root, p, "_w_1200.webp")| == |d| + 1 + |n| + 12;
  }

  /** The disk after one conversion: what it wrote, stamped in order. */
  function After(d: Disk, o: Outcome): Disk {
    Store(d, AllWritten(o))
  }

  /** The disk that running some conversions one after another leaves. */
  function DiskAfter(jobs: seq<Job>, d0: Disk): Disk
    decreases |jobs|
  {
    if jobs == [] then d0
    else
      var d := DiskAfter(jobs[..|jobs| - 1], d0);
      After(d, RunJob(jobs[|jobs| - 1], d))
  }

  /** The outcomes of running some conversions one after another: each finds the disk the ones before it left. */
  function RunAll(jobs: seq<Job>, d0: Disk): (r: seq<Outcome>)
    ensures |r| == |jobs|
    decreases |jobs|
  {
    if jobs == [] then []
    else
      var front := jobs[..|jobs| - 1];
      RunAll(front, d0) + [RunJob(jobs[|jobs| - 1], DiskAfter(front, d0))]
  }

  lemma {:induction false} RunAllAt(jobs: seq<Job>, d0: Disk, i: nat)
    requires i < |jobs|
    ensures RunAll(jobs, d0)[i] == RunJob(jobs[i], DiskAfter(jobs[..i], d0))
    decreases |jobs|
  {
    var n := |jobs|;
    if i < n - 1 {
      assert jobs[..n - 1][..i] == jobs[..i];
      RunAllAt(jobs[..n - 1], d0, i);
    } else {
      assert jobs[..n - 1] == jobs[..i];
    }
  }

  lemma RunAllPrefix(jobs: seq<Job>, d0: Disk, i: nat)
    requires i < |jobs|
    ensures var d := DiskAfter(jobs[..i], d0);
      var o := RunJob(jobs[i], d);
      RunAll(jobs[..i + 1], d0) == RunAll(jobs[..i], d0) + [o] &&
      DiskAfter(jobs[..i + 1], d0) == After(d, o)
  {
    assert jobs[..i + 1][..i] == jobs[..i];
  }

  /** The conversions of some files, in order. */
  function Jobs(root: string, files: seq<string>, facts: string -> FileFacts): (r: seq<Job>)
    requires forall p :: p in files ==> Under(root, p)
    ensures |r| == |files|
    ensures forall i :: 0 <= i < |files| ==> r[i] == JobOf(root, files[i], facts(files[i]))
  {
    seq(|files|, i requires 0 <= i < |files| => JobOf(root, files[i], facts(files[i])))
  }

  lemma JobsPrefix(root: string, files: seq<string>, facts: string -> FileFacts, i: nat)
    requires forall p :: p in files ==> Under(root, p)
    requires i <= |files|
    ensures forall p :: p in files[..i] ==> Under(root, p)
    ensures Jobs(root, files, facts)[..i] == Jobs(root, files[..i], facts)
  {
    assert forall p :: p in files[..i] ==> p in files;
  }

  /** The outcomes of converting some files one after another, in order. */
  function ConvertAll(root: string, files: seq<string>, facts: string -> FileFacts, d0: Disk): (r: seq<Outcome>)
    requires forall p :: p in files ==> Under(root, p)
    ensures |r| == |files|
  {
    RunAll(Jobs(root, files, facts), d0)
  }

  /**
   * A failure never stops the loop: file `i` gets its own outcome, the one its
   * conversion has on the disk that the files before it left. That disk holds
   * their outputs, so a file can be skipped because of an earlier one.
   */
  lemma ConvertAllAt(root: string, files: seq<string>, facts: string -> FileFacts, d0: Disk, i: nat)
    requires forall p :: p in files ==> Under(root, p)
    requires i < |files|
    ensures forall p :: p in files[..i] ==> Under(root, p)
    ensures ConvertAll(root, files, facts, d0)[i] ==
      ConvertOne(root, files[i], facts(files[i]), DiskAfter(Jobs(root, files[..i], facts), d0))
  {
    var jobs := Jobs(root, files, facts);
    RunAllAt(jobs, d0, i);
    JobsPrefix(root, files, facts, i);
  }

  /** A conversion that wrote nothing leaves the disk as it was. */
  lemma NothingWrittenSameDisk(d: Disk, o: Outcome)
    requires AllWritten(o) == []
    ensures After(d, o) == d
  {
  }

  /** A completed conversion leaves its output on disk, stamped no earlier than the clock it started from. */
  lemma ConvertedOutputStored(root: string, p: string, f: FileFacts, d: Disk)
    requires Under(root, p)
    requires ConvertOne(root, p, f, d).Converted?
    ensures OutputPath(root, p) in After(d, ConvertOne(root, p, f, d)).mtimes
    ensures After(d, ConvertOne(root, p, f, d)).mtimes[OutputPath(root, p)] >= d.clock
  {
    ConvertedOutputs(root, p, f, d);
    StoreFacts(d, ConvertOne(root, p, f, d).written);
  }

  /** Two names with the same stem and different extensions have the same output in the same folder. */
  lemma SameStemSameOutput(root: string, stem: string, e1: string, e2: string)
    requires stem != "" && '/' !in stem && '.' !in stem
    requires e1 != "" && '/' !in e1 && '.' !in e1 && e2 != "" && '/' !in e2 && '.' !in e2
    ensures Under(root, root + "/" + (stem + "." + e1)) && Under(root, root + "/" + (stem + "." + e2))
    ensures OutputPath(root, root + "/" + (stem + "." + e1)) == OutputPath(root, root + "/" + (stem + "." + e2))
    ensures OutputPath(root, root + "/" + (stem + "." + e1)) == TargetDir(root) + "/" + stem + ".webp"
  {
    StemOfDotted(stem, e1);
    StemOfDotted(stem, e2);
    OutputPathTopLevel(root, stem + "." + e1);
    OutputPathTopLevel(root, stem + "." + e2);
  }

  lemma StemOfDotted(stem: string, e: string)
    requires stem != "" && '/' !in stem && '.' !in stem && e != "" && '/' !in e && '.' !in e
    ensures '/' !in stem + "." + e
    ensures StripExt(stem + "." + e) == stem
  {
    ExtNameOfStem(stem, e);
    var n := stem + "." + e;
    assert '/' !in ".";
    assert n[..|stem|] == stem;
  }

  /**
   * Same-stem sources collide (`a.png` and `a.jpg`): once the first has been
   * converted, the second finds the shared output newer than itself and is
   * skipped; had the first failed before writing, the second would be converted
   * against the untouched disk.
   */
  lemma SameStemSkipped(root: string, stem: string, e1: string, e2: string, f1: FileFacts, f2: FileFacts, d: Disk)
    requires stem != "" && '/' !in stem && '.' !in stem
    requires e1 != "" && '/' !in e1 && '.' !in e1 && e2 != "" && '/' !in e2 && '.' !in e2
    requires Under(root, root + "/" + (stem + "." + e1)) && Under(root, root + "/" + (stem + "." + e2))
    requires ConvertOne(root, root + "/" + (stem + "." + e1), f1, d).Converted?
    requires f2.failure != FailBeforeCheck && d.clock > f2.sourceMtime
    ensures var d1 := After(d, ConvertOne(root, root + "/" + (stem + "." + e1), f1, d));
      ConvertOne(root, root + "/" + (stem + "." + e2), f2, d1) == Skipped
  {
    var p1 := root + "/" + (stem + "." + e1);
    SameStemSameOutput(root, stem, e1, e2);
    ConvertedOutputStored(root, p1, f1, d);
  }

  /** In the loop: `a.png` then `a.jpg`, the first converted, leaves the second skipped. */
  lemma SameStemSkippedInLoop(root: string, stem: string, e1: string, e2: string, facts: string -> FileFacts, d: Disk)
    requires stem != "" && '/' !in stem && '.' !in stem
    requires e1 != "" && '/' !in e1 && '.' !in e1 && e2 != "" && '/' !in e2 && '.' !in e2
    requires Under(root, root + "/" + (stem + "." + e1)) && Under(root, root + "/" + (stem + "." + e2))
    requires var p1 := root + "/" + (stem + "." + e1); ConvertOne(root, p1, facts(p1), d).Converted?
    requires var p2 := root + "/" + (stem + "." + e2);
      facts(p2).failure != FailBeforeCheck && d.clock > facts(p2).sourceMtime
    ensures var files := [root + "/" + (stem + "." + e1), root + "/" + (stem + "." + e2)];
      ConvertAll(root, files, facts, d)[1] == Skipped
  {
    var p1 := root + "/" + (stem + "." + e1);
    var p2 := root + "/" + (stem + "." + e2);
    SecondOfTwo(root, p1, p2, facts, d);
    SameStemSkipped(root, stem, e1, e2, facts(p1), facts(p2), d);
  }

  /** The second of two conversions runs on the disk the first left. */
  lemma SecondOfTwo(root: string, p1: string, p2: string, facts: string -> FileFacts, d: Disk)
    requires Under(root, p1) && Under(root, p2)
    ensures ConvertAll(root, [p1, p2], facts, d)[1] ==
      ConvertOne(root, p2, facts(p2), After(d, ConvertOne(root, p1, facts(p1), d)))
  {
    var files := [p1, p2];
    ConvertAllAt(root, files, facts, d, 1);
    var first := Jobs(root, files[..1], facts);
    assert first == [JobOf(root, p1, facts(p1))];
    assert first[..0] == [];
    assert DiskAfter(first, d) == After(d, ConvertOne(root, p1, facts(p1), d));
  }

  /** A first file that fails before its check writes nothing, so the second sees the disk as it was. */
  lemma EarlyFailureNoEffect(root: string, p1: string, p2: string, f1: FileFacts, f2: FileFacts, d: Disk)
    requires Under(root, p1) && Under(root, p2)
    requires f1.failure == FailBeforeCheck
    ensures ConvertOne(root, p2, f2, After(d, ConvertOne(root, p1, f1, d))) == ConvertOne(root, p2, f2, d)
  {
    NothingWrittenSameDisk(d, ConvertOne(root, p1, f1, d));
  }

  /**
   * `main`: collects the images, then converts them one at a time in the
   * order found; `facts(path)` stands for `stat` and `sharp` on that source,
   * and `disk0` for the target folder and the clock when the loop starts.
   */
  method RunConversion(root: string, tree: seq<Entry>, facts: string -> FileFacts, disk0: Disk)
    returns (found: seq<string>, outcomes: seq<Outcome>, disk: Disk)
    ensures found == ImageFiles(root, tree)
    ensures forall p :: p in found ==> Under(root, p)
    ensures outcomes == ConvertAll(root, found, facts, disk0)
    ensures disk == DiskAfter(Jobs(root, found, facts), disk0)
  {
    found := FindImageFiles(root, tree, []);
    CollectedUnder(root, tree);
    ghost var jobs := Jobs(root, found, facts);
    outcomes, disk := [], disk0;
    for i := 0 to |found|
      invariant outcomes == RunAll(jobs[..i], disk0)
      invariant disk == DiskAfter(jobs[..i], disk0)
    {
      RunAllPrefix(jobs, disk0, i);
      var o := ConvertOne(root, found[i], facts(found[i]), disk);
      assert o == RunJob(jobs[i], disk);
      outcomes, disk := outcomes + [o], After(disk, o);
    }
    assert jobs[..|found|] == jobs;
  }
}
