/**
 * The browser-compatibility recorder: for every browser and device pair it
 * asks for a status per feature, a note for every status other than `pass`,
 * and one closing note, and the HTML report counts the `fail` and `partial`
 * entries. The answers typed at the prompts are an input sequence; a session
 * whose answers run out never finishes and is `None`. Files, the clock and
 * the HTML text around the figures are left out.
 */
module BrowserCompatibility {
  import opened Options

  const Browsers: seq<string> := ["Chrome", "Firefox", "Safari", "Edge"]
  const Devices: seq<string> := ["Desktop", "Tablet", "Mobile"]
  const Features: seq<string> := [
    "Layout rendering",
    "Responsive design",
    "Image loading",
    "WebP support",
    "Lazy loading",
    "Form validation",
    "Animations",
    "Hover effects",
    "Focus states",
    "Touch interactions"
  ]

  datatype FeatureResult = FeatureResult(name: string, status: string, notes: string)
  datatype BrowserTest = BrowserTest(browser: string, device: string, features: seq<FeatureResult>, notes: string)
  datatype Results = Results(timestamp: string, tester: string, tests: seq<BrowserTest>)

  /** A partial reading: what was read so far and the position of the next answer; `None` when the answers ran out. */
  type Reading<T> = Option<(seq<T>, nat)>

  function Prepend<T>(acc: seq<T>, r: Reading<T>): Reading<T> {
    match r
    case None => None
    case Some((xs, p)) => Some((acc + xs, p))
  }

  /*
   * The readings take the three lists as parameters `bs`, `ds` and `fs`;
   * the session passes `BROWSERS`, `DEVICES` and `FEATURES`.
   */

  /** The feature prompts from answer `pos` on: `skip` records nothing, `pass` records empty notes, anything else reads a note. */
  function ReadFeatures(answers: seq<string>, pos: nat, fs: seq<string>): Reading<FeatureResult>
    decreases fs
  {
    if fs == [] then Some(([], pos))
    else if pos >= |answers| then None
    else
      var status := answers[pos];
      if status == "skip" then ReadFeatures(answers, pos + 1, fs[1..])
      else if status == "pass" then Prepend([FeatureResult(fs[0], status, "")], ReadFeatures(answers, pos + 1, fs[1..]))
      else if pos + 1 >= |answers| then None
      else Prepend([FeatureResult(fs[0], status, answers[pos + 1])], ReadFeatures(answers, pos + 2, fs[1..]))
  }

  /** One browser and device pair: the feature prompts, then the additional notes. */
  function ReadCombination(answers: seq<string>, pos: nat, browser: string, device: string, fs: seq<string>): Reading<BrowserTest> {
    match ReadFeatures(answers, pos, fs)
    case None => None
    case Some((fr, p)) =>
      if p >= |answers| then None else Some(([BrowserTest(browser, device, fr, answers[p])], p + 1))
  }

  function AfterCombination(r: Reading<BrowserTest>, answers: seq<string>, browser: string, ds: seq<string>, fs: seq<string>): Reading<BrowserTest>
    decreases ds, 1
  {
    match r
    case None => None
    case Some((t, p)) => Prepend(t, ReadDevices(answers, p, browser, ds, fs))
  }

  /** The devices of one browser, in list order. */
  function ReadDevices(answers: seq<string>, pos: nat, browser: string, ds: seq<string>, fs: seq<string>): Reading<BrowserTest>
    decreases ds, 0
  {
    if ds == [] then Some(([], pos))
    else AfterCombination(ReadCombination(answers, pos, browser, ds[0], fs), answers, browser, ds[1..], fs)
  }

  function AfterDevices(r: Reading<BrowserTest>, answers: seq<string>, bs: seq<string>, ds: seq<string>, fs: seq<string>): Reading<BrowserTest>
    decreases bs, 1
  {
    match r
    case None => None
    case Some((ts, p)) => Prepend(ts, ReadBrowsers(answers, p, bs, ds, fs))
  }

  /** The browsers in list order, each over all devices. */
  function ReadBrowsers(answers: seq<string>, pos: nat, bs: seq<string>, ds: seq<string>, fs: seq<string>): Reading<BrowserTest>
    decreases bs, 0
  {
    if bs == [] then Some(([], pos))
    else AfterDevices(ReadDevices(answers, pos, bs[0], ds, fs), answers, bs[1..], ds, fs)
  }

  /** The whole session: the tester's name, then every pair. */
  function Session(timestamp: string, answers: seq<string>): Option<Results> {
    if answers == [] then None
    else
      match ReadBrowsers(answers, 1, Browsers, Devices, Features)
      case None => None
      case Some((ts, _)) => Some(Results(timestamp, answers[0], ts))
  }

  lemma PrependEmpty<T>(r: Reading<T>)
    ensures Prepend([], r) == r
  {
    if r.Some? {
      assert [] + r.value.0 == r.value.0;
    }
  }

  lemma PrependPrepend<T>(a: seq<T>, b: seq<T>, r: Reading<T>)
    ensures Prepend(a, Prepend(b, r)) == Prepend(a + b, r)
  {
    if r.Some? {
      assert a + (b + r.value.0) == (a + b) + r.value.0;
    }
  }

  lemma AfterDevicesPrepend(a: seq<BrowserTest>, r: Reading<BrowserTest>, answers: seq<string>, bs: seq<string>, ds: seq<string>, fs: seq<string>)
    ensures AfterDevices(Prepend(a, r), answers, bs, ds, fs) == Prepend(a, AfterDevices(r, answers, bs, ds, fs))
  {
    if r.Some? {
      PrependPrepend(a, r.value.0, ReadBrowsers(answers, r.value.1, bs, ds, fs));
    }
  }

  /** The loop over the features of one pair: a status each, and a note for every status but `pass`. */
  method AskFeatures(answers: seq<string>, pos0: nat, fs: seq<string>) returns (r: Reading<FeatureResult>)
    ensures r == ReadFeatures(answers, pos0, fs)
  {
    var features: seq<FeatureResult> := [];
    var pos: nat := pos0;
    assert fs[0..] == fs;
    PrependEmpty(ReadFeatures(answers, pos0, fs));
    for i := 0 to |fs|
      invariant Prepend(features, ReadFeatures(answers, pos, fs[i..])) == ReadFeatures(answers, pos0, fs)
    {
      assert fs[i..][0] == fs[i] && fs[i..][1..] == fs[i + 1..];
      if pos >= |answers| {
        return None;
      }
      var status := answers[pos];
      pos := pos + 1;
      if status != "skip" {
        var notes := "";
        if status != "pass" {
          if pos >= |answers| {
            return None;
          }
          notes := answers[pos];
          pos := pos + 1;
        }
        PrependPrepend(features, [FeatureResult(fs[i], status, notes)], ReadFeatures(answers, pos, fs[i + 1..]));
        features := features + [FeatureResult(fs[i], status, notes)];
      }
    }
    assert fs[|fs|..] == [] && features + [] == features;
    r := Some((features, pos));
  }

  /** One browser and device pair: the feature loop, then the additional-notes prompt. */
  method TestCombination(answers: seq<string>, pos0: nat, browser: string, device: string, fs: seq<string>)
    returns (r: Reading<BrowserTest>)
    ensures r == ReadCombination(answers, pos0, browser, device, fs)
  {
    var features := AskFeatures(answers, pos0, fs);
    if features.None? || features.value.1 >= |answers| {
      return None;
    }
    var pos := features.value.1;
    r := Some(([BrowserTest(browser, device, features.value.0, answers[pos])], pos + 1));
  }

  /** The nested loops over browsers and devices, pushing one record per pair. */
  method RecordTests(answers: seq<string>, pos0: nat, bs: seq<string>, ds: seq<string>, fs: seq<string>)
    returns (r: Reading<BrowserTest>)
    ensures r == ReadBrowsers(answers, pos0, bs, ds, fs)
  {
    var tests: seq<BrowserTest> := [];
    var pos: nat := pos0;
    ghost var target := ReadBrowsers(answers, pos0, bs, ds, fs);
    assert bs[0..] == bs;
    PrependEmpty(target);
    for b := 0 to |bs|
      invariant Prepend(tests, ReadBrowsers(answers, pos, bs[b..], ds, fs)) == target
    {
      var browser := bs[b];
      assert bs[b..][0] == browser && bs[b..][1..] == bs[b + 1..];
      assert ds[0..] == ds;
      for d := 0 to |ds|
        invariant Prepend(tests, AfterDevices(ReadDevices(answers, pos, browser, ds[d..], fs), answers, bs[b + 1..], ds, fs)) == target
      {
        assert ds[d..][0] == ds[d] && ds[d..][1..] == ds[d + 1..];
        var test := TestCombination(answers, pos, browser, ds[d], fs);
        if test.None? {
          return None;
        }
        var rest := ReadDevices(answers, test.value.1, browser, ds[d + 1..], fs);
        AfterDevicesPrepend(test.value.0, rest, answers, bs[b + 1..], ds, fs);
        PrependPrepend(tests, test.value.0, AfterDevices(rest, answers, bs[b + 1..], ds, fs));
        tests := tests + test.value.0;
        pos := test.value.1;
      }
      assert ds[|ds|..] == [];
      PrependEmpty(ReadBrowsers(answers, pos, bs[b + 1..], ds, fs));
    }
    assert bs[|bs|..] == [] && tests + [] == tests;
    r := Some((tests, pos));
  }

  /** `runCompatibilityTest` without the files: the tester's name, then every pair. */
  method RunCompatibilityTest(timestamp: string, answers: seq<string>) returns (r: Option<Results>)
    ensures r == Session(timestamp, answers)
  {
    if answers == [] {
      return None;
    }
    var tester := answers[0];
    var tests := RecordTests(answers, 1, Browsers, Devices, Features);
    if tests.None? {
      return None;
    }
    r := Some(Results(timestamp, tester, tests.value.0));
  }

  // Properties of the recorded results

  /** `a` is `b` with some elements left out. */
  predicate IsSubsequence(a: seq<string>, b: seq<string>)
    decreases b
  {
    if a == [] then true
    else if b == [] then false
    else (a[0] == b[0] && IsSubsequence(a[1..], b[1..])) || IsSubsequence(a, b[1..])
  }

  function Names(fr: seq<FeatureResult>): seq<string>
    decreases fr
  {
    if fr == [] then [] else [fr[0].name] + Names(fr[1..])
  }

  /** The entries that prompted for a note. */
  function CountNotPass(fr: seq<FeatureResult>): nat
    decreases fr
  {
    if fr == [] then 0 else (if fr[0].status != "pass" then 1 else 0) + CountNotPass(fr[1..])
  }

  /** No entry is a `skip`, and every `pass` carries empty notes. */
  predicate WellRecorded(fr: seq<FeatureResult>) {
    forall i :: 0 <= i < |fr| ==> fr[i].status != "skip" && (fr[i].status == "pass" ==> fr[i].notes == "")
  }

  lemma RecordedCons(f: FeatureResult, fr: seq<FeatureResult>)
    requires WellRecorded(fr)
    requires f.status != "skip" && (f.status == "pass" ==> f.notes == "")
    ensures WellRecorded([f] + fr)
    ensures Names([f] + fr) == [f.name] + Names(fr)
    ensures CountNotPass([f] + fr) == (if f.status != "pass" then 1 else 0) + CountNotPass(fr)
  {
    assert ([f] + fr)[1..] == fr;
  }

  /** No answer from position `pos` on is `skip`. */
  predicate NoSkipFrom(answers: seq<string>, pos: nat) {
    forall j :: pos <= j < |answers| ==> answers[j] != "skip"
  }

  /**
   * Reading the feature prompts records the features in list order with the
   * skipped ones left out, no `skip` entry and empty notes for `pass`, and
   * consumes one answer per feature plus one note per entry other than `pass`.
   * When no `skip` is typed, every feature is recorded.
   */
  lemma {:induction false} ReadFeaturesShape(answers: seq<string>, pos: nat, fs: seq<string>)
    requires ReadFeatures(answers, pos, fs).Some?
    ensures var (fr, p) := ReadFeatures(answers, pos, fs).value;
      IsSubsequence(Names(fr), fs) && WellRecorded(fr) && p == pos + |fs| + CountNotPass(fr)
    ensures NoSkipFrom(answers, pos) ==> Names(ReadFeatures(answers, pos, fs).value.0) == fs
    decreases fs
  {
    if fs != [] {
      var status := answers[pos];
      var step := if status == "skip" || status == "pass" then 1 else 2;
      ReadFeaturesShape(answers, pos + step, fs[1..]);
      var (rest, _) := ReadFeatures(answers, pos + step, fs[1..]).value;
      if status != "skip" {
        var f := FeatureResult(fs[0], status, if status == "pass" then "" else answers[pos + 1]);
        RecordedCons(f, rest);
        assert ([f.name] + Names(rest))[1..] == Names(rest);
        assert [fs[0]] + fs[1..] == fs;
      } else {
        SubsequenceDropHead(Names(rest), fs);
      }
    }
  }

  /** Reading the prompts of `a + b` reads those of `a`, then those of `b` from where `a` stopped. */
  lemma {:induction false} ReadFeaturesAppend(answers: seq<string>, pos: nat, a: seq<string>, b: seq<string>)
    ensures ReadFeatures(answers, pos, a + b) ==
      match ReadFeatures(answers, pos, a)
      case None => None
      case Some((x, p)) => Prepend(x, ReadFeatures(answers, p, b))
    decreases a
  {
    if a == [] {
      assert a + b == b;
      PrependEmpty(ReadFeatures(answers, pos, b));
    } else {
      assert (a + b)[0] == a[0] && (a + b)[1..] == a[1..] + b;
      if pos < |answers| {
        var status := answers[pos];
        if status == "skip" || status == "pass" {
          ReadFeaturesAppend(answers, pos + 1, a[1..], b);
          var e := if status == "skip" then [] else [FeatureResult(a[0], status, "")];
          var ra := ReadFeatures(answers, pos + 1, a[1..]);
          if ra.Some? {
            PrependPrepend(e, ra.value.0, ReadFeatures(answers, ra.value.1, b));
            if status == "skip" {
              PrependEmpty(Prepend(ra.value.0, ReadFeatures(answers, ra.value.1, b)));
              assert e + ra.value.0 == ra.value.0;
            }
          }
        } else if pos + 1 < |answers| {
          ReadFeaturesAppend(answers, pos + 2, a[1..], b);
          var e := [FeatureResult(a[0], status, answers[pos + 1])];
          var ra := ReadFeatures(answers, pos + 2, a[1..]);
          if ra.Some? {
            PrependPrepend(e, ra.value.0, ReadFeatures(answers, ra.value.1, b));
          }
        }
      }
    }
  }

  /**
   * Feature `k` is asked where the reading of the features before it stopped:
   * a `skip` there records nothing for it, and any other answer records
   * feature `k` with that answer as its status, right after the entries of
   * the features before it.
   */
  lemma FeatureRecordedIff(answers: seq<string>, pos: nat, fs: seq<string>, k: nat)
    requires ReadFeatures(answers, pos, fs).Some? && k < |fs|
    ensures ReadFeatures(answers, pos, fs[..k]).Some? && ReadFeatures(answers, pos, fs[..k + 1]).Some?
    ensures var (pre, q) := ReadFeatures(answers, pos, fs[..k]).value;
      var fr := ReadFeatures(answers, pos, fs).value.0;
      q < |answers| && pre <= fr &&
      (answers[q] == "skip" ==> ReadFeatures(answers, pos, fs[..k + 1]).value.0 == pre) &&
      (answers[q] != "skip" ==>
        |pre| < |fr| && (answers[q] != "pass" ==> q + 1 < |answers|) &&
        fr[|pre|] == FeatureResult(fs[k], answers[q], if answers[q] == "pass" then "" else answers[q + 1]))
  {
    ReadFeaturesAppend(answers, pos, fs[..k], fs[k..]);
    assert fs[..k] + fs[k..] == fs;
    ReadFeaturesAppend(answers, pos, fs[..k], [fs[k]]);
    assert fs[..k] + [fs[k]] == fs[..k + 1];
    var (pre, q) := ReadFeatures(answers, pos, fs[..k]).value;
    var tail := fs[k..];
    assert tail[0] == fs[k] && tail[1..] == fs[k + 1..];
    assert [fs[k]][1..] == [];
    var rt := ReadFeatures(answers, q, tail);
    assert rt.Some?;
    var fr := ReadFeatures(answers, pos, fs).value.0;
    assert fr == pre + rt.value.0;
    if answers[q] == "skip" {
      assert pre + [] == pre;
    }
  }

  lemma SubsequenceDropHead(a: seq<string>, b: seq<string>)
    requires b != [] && IsSubsequence(a, b[1..])
    ensures IsSubsequence(a, b)
  {
  }

  /** A subsequence is no longer than the sequence it is taken from. */
  lemma {:induction false} SubsequenceLength(a: seq<string>, b: seq<string>)
    requires IsSubsequence(a, b)
    ensures |a| <= |b|
    decreases b
  {
    if a != [] {
      if a[0] == b[0] && IsSubsequence(a[1..], b[1..]) {
        SubsequenceLength(a[1..], b[1..]);
      } else {
        SubsequenceLength(a, b[1..]);
      }
    }
  }

  lemma {:induction false} NamesLength(fr: seq<FeatureResult>)
    ensures |Names(fr)| == |fr|
    decreases fr
  {
    if fr != [] {
      NamesLength(fr[1..]);
    }
  }

  /** What every recorded pair satisfies. */
  predicate GoodTest(t: BrowserTest, fs: seq<string>) {
    IsSubsequence(Names(t.features), fs) && WellRecorded(t.features)
  }

  lemma CombinationShape(answers: seq<string>, pos: nat, browser: string, device: string, fs: seq<string>)
    requires ReadCombination(answers, pos, browser, device, fs).Some?
    ensures var (t, p) := ReadCombination(answers, pos, browser, device, fs).value;
      |t| == 1 && t[0].browser == browser && t[0].device == device && GoodTest(t[0], fs) &&
      pos + |fs| + 1 <= p <= |answers| &&
      (NoSkipFrom(answers, pos) ==> Names(t[0].features) == fs)
  {
    ReadFeaturesShape(answers, pos, fs);
  }

  /** The devices of one browser give one record per device, in order, each well recorded. */
  lemma {:induction false} ReadDevicesShape(answers: seq<string>, pos: nat, browser: string, ds: seq<string>, fs: seq<string>)
    requires ReadDevices(answers, pos, browser, ds, fs).Some?
    ensures var ts := ReadDevices(answers, pos, browser, ds, fs).value.0;
      |ts| == |ds| &&
      forall k :: 0 <= k < |ts| ==> ts[k].browser == browser && ts[k].device == ds[k] && GoodTest(ts[k], fs)
    ensures pos <= ReadDevices(answers, pos, browser, ds, fs).value.1
    ensures NoSkipFrom(answers, pos) ==>
      forall k :: 0 <= k < |ds| ==> Names(ReadDevices(answers, pos, browser, ds, fs).value.0[k].features) == fs
    decreases ds
  {
    if ds != [] {
      CombinationShape(answers, pos, browser, ds[0], fs);
      var p := ReadCombination(answers, pos, browser, ds[0], fs).value.1;
      ReadDevicesShape(answers, p, browser, ds[1..], fs);
    }
  }

  lemma DivThree(i: nat)
    requires i >= 3
    ensures (i - 3) / 3 == i / 3 - 1 && (i - 3) % 3 == i % 3
  {
  }

  /** With three devices, the browsers give three records each, browser-major, each well recorded. */
  lemma {:induction false} ReadBrowsersShape(answers: seq<string>, pos: nat, bs: seq<string>, ds: seq<string>, fs: seq<string>)
    requires |ds| == 3
    requires ReadBrowsers(answers, pos, bs, ds, fs).Some?
    ensures var ts := ReadBrowsers(answers, pos, bs, ds, fs).value.0;
      |ts| == 3 * |bs| &&
      forall i :: 0 <= i < |ts| ==> ts[i].browser == bs[i / 3] && ts[i].device == ds[i % 3] && GoodTest(ts[i], fs)
    ensures NoSkipFrom(answers, pos) ==>
      forall i :: 0 <= i < 3 * |bs| ==> Names(ReadBrowsers(answers, pos, bs, ds, fs).value.0[i].features) == fs
    decreases bs
  {
    if bs != [] {
      var r := ReadDevices(answers, pos, bs[0], ds, fs);
      ReadDevicesShape(answers, pos, bs[0], ds, fs);
      var (head, p) := r.value;
      ReadBrowsersShape(answers, p, bs[1..], ds, fs);
      var tail := ReadBrowsers(answers, p, bs[1..], ds, fs).value.0;
      var ts := head + tail;
      forall i | 0 <= i < |ts|
        ensures ts[i].browser == bs[i / 3] && ts[i].device == ds[i % 3] && GoodTest(ts[i], fs)
      {
        if i >= 3 {
          DivThree(i);
          assert ts[i] == tail[i - 3];
          assert bs[1..][(i - 3) / 3] == bs[i / 3];
        }
      }
    }
  }

  /**
   * A finished session holds exactly one record per browser and device
   * pair, twelve in all, browser-major in list order, and every record keeps
   * the features in list order without the skipped ones.
   */
  lemma SessionShape(timestamp: string, answers: seq<string>)
    requires Session(timestamp, answers).Some?
    ensures var tests := Session(timestamp, answers).value.tests;
      |tests| == 12 &&
      forall i :: 0 <= i < |tests| ==>
        tests[i].browser == Browsers[i / 3] && tests[i].device == Devices[i % 3] && GoodTest(tests[i], Features)
    ensures NoSkipFrom(answers, 1) ==>
      forall i :: 0 <= i < 12 ==> Names(Session(timestamp, answers).value.tests[i].features) == Features
  {
    ReadBrowsersShape(answers, 1, Browsers, Devices, Features);
  }

  /** A session reads at least one answer per feature and one closing note per pair, after the name: 133 answers. */
  lemma SessionNeedsAnswers(timestamp: string, answers: seq<string>)
    requires |answers| < 133
    ensures Session(timestamp, answers).None?
  {
    if answers != [] && ReadBrowsers(answers, 1, Browsers, Devices, Features).Some? {
      ReadBrowsersConsumes(answers, 1, Browsers, Devices, Features);
    }
  }

  lemma {:induction false} ReadBrowsersConsumes(answers: seq<string>, pos: nat, bs: seq<string>, ds: seq<string>, fs: seq<string>)
    requires |ds| == 3 && |fs| == 10
    requires pos <= |answers| && ReadBrowsers(answers, pos, bs, ds, fs).Some?
    ensures pos + 33 * |bs| <= ReadBrowsers(answers, pos, bs, ds, fs).value.1 <= |answers|
    decreases bs
  {
    if bs != [] {
      ReadDevicesConsumes(answers, pos, bs[0], ds, fs);
      var p := ReadDevices(answers, pos, bs[0], ds, fs).value.1;
      ReadBrowsersConsumes(answers, p, bs[1..], ds, fs);
    }
  }

  lemma {:induction false} ReadDevicesConsumes(answers: seq<string>, pos: nat, browser: string, ds: seq<string>, fs: seq<string>)
    requires |fs| == 10
    requires pos <= |answers| && ReadDevices(answers, pos, browser, ds, fs).Some?
    ensures pos + 11 * |ds| <= ReadDevices(answers, pos, browser, ds, fs).value.1 <= |answers|
    decreases ds
  {
    if ds != [] {
      CombinationShape(answers, pos, browser, ds[0], fs);
      var p := ReadCombination(answers, pos, browser, ds[0], fs).value.1;
      ReadDevicesConsumes(answers, p, browser, ds[1..], fs);
    }
  }

  // The figures of the HTML report

  function CountIssues(fr: seq<FeatureResult>): nat
    decreases fr
  {
    if fr == [] then 0 else (if fr[0].status == "fail" || fr[0].status == "partial" then 1 else 0) + CountIssues(fr[1..])
  }

  /** `issues`: the `fail` and `partial` entries over all records. */
  function Issues(tests: seq<BrowserTest>): nat
    decreases tests
  {
    if tests == [] then 0 else CountIssues(tests[0].features) + Issues(tests[1..])
  }

  /** The class of the issues card. */
  function Severity(issues: nat): string {
    if issues > 5 then "bad" else if issues > 0 then "warning" else "good"
  }

  /** `${feature.notes || '-'}`. */
  function NotesCell(notes: string): string {
    if notes == "" then "-" else notes
  }

  /** The additional-notes block, absent for empty notes. */
  function NotesBlock(notes: string): Option<string> {
    if notes == "" then None else Some("Additional notes: " + notes)
  }

  predicate IsIssue(f: FeatureResult) {
    f.status == "fail" || f.status == "partial"
  }

  lemma {:induction false} CountIssuesZeroIff(fr: seq<FeatureResult>)
    ensures CountIssues(fr) == 0 <==> forall j :: 0 <= j < |fr| ==> !IsIssue(fr[j])
    ensures CountIssues(fr) <= |fr|
    decreases fr
  {
    if fr != [] {
      CountIssuesZeroIff(fr[1..]);
      assert forall j :: 1 <= j < |fr| ==> fr[j] == fr[1..][j - 1];
    }
  }

  /** No issue is counted exactly when no recorded entry is `fail` or `partial`. */
  lemma {:induction false} IssuesZeroIff(tests: seq<BrowserTest>)
    ensures Issues(tests) == 0 <==>
      forall i, j :: 0 <= i < |tests| && 0 <= j < |tests[i].features| ==> !IsIssue(tests[i].features[j])
    decreases tests
  {
    if tests != [] {
      CountIssuesZeroIff(tests[0].features);
      IssuesZeroIff(tests[1..]);
      assert forall i :: 1 <= i < |tests| ==> tests[i] == tests[1..][i - 1];
    }
  }

  /** A record holds at most one entry per feature, so with ten features at most ten issues. */
  lemma {:induction false} IssuesBound(tests: seq<BrowserTest>, fs: seq<string>)
    requires |fs| == 10
    requires forall i :: 0 <= i < |tests| ==> GoodTest(tests[i], fs)
    ensures Issues(tests) <= 10 * |tests|
    decreases tests
  {
    if tests != [] {
      assert GoodTest(tests[0], fs);
      SubsequenceLength(Names(tests[0].features), fs);
      NamesLength(tests[0].features);
      CountIssuesZeroIff(tests[0].features);
      assert forall i :: 0 <= i < |tests[1..]| ==> tests[1..][i] == tests[i + 1];
      IssuesBound(tests[1..], fs);
    }
  }

  /** A finished session reports at most 120 issues. */
  lemma SessionIssuesBound(timestamp: string, answers: seq<string>)
    requires Session(timestamp, answers).Some?
    ensures Issues(Session(timestamp, answers).value.tests) <= 120
  {
    SessionShape(timestamp, answers);
    IssuesBound(Session(timestamp, answers).value.tests, Features);
  }

  /** The card is `good` exactly when nothing failed, and `bad` exactly when more than five entries did. */
  lemma SeverityOfTests(tests: seq<BrowserTest>)
    ensures Severity(Issues(tests)) == "good" <==>
      forall i, j :: 0 <= i < |tests| && 0 <= j < |tests[i].features| ==> !IsIssue(tests[i].features[j])
    ensures Severity(Issues(tests)) == "bad" <==> Issues(tests) > 5
    ensures Severity(Issues(tests)) in {"good", "warning", "bad"}
  {
    IssuesZeroIff(tests);
  }

  /** A notes cell is never empty, and shows non-empty notes as they are. */
  lemma NotesCellShown(notes: string)
    ensures NotesCell(notes) != ""
    ensures notes != "" ==> NotesCell(notes) == notes
  {
  }

  /** The notes block appears exactly for non-empty notes, and ends with them. */
  lemma NotesBlockShown(notes: string)
    ensures NotesBlock(notes).Some? <==> notes != ""
    ensures NotesBlock(notes).Some? ==> EndsWithNotes(NotesBlock(notes).value, notes)
  {
  }

  predicate EndsWithNotes(block: string, notes: string) {
    |notes| <= |block| && block[|block| - |notes|..] == notes
  }
}
