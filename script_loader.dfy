/**
 * The third-party script loader: its effect does nothing once `loaded`,
 * reuses an element whose id is `id || src`, and otherwise creates a script
 * element at a moment chosen by the strategy: at once, after the window's
 * `load` event, or at idle time (a 1500 ms timer where `requestIdleCallback`
 * is missing). The script's `onload` sets `loaded` and calls `onLoad`; its
 * `onerror` calls only `onError`. The page is reduced to the ids it holds,
 * the scripts appended to its body, its `readyState` and whether it offers
 * `requestIdleCallback`; callbacks are counted rather than run.
 */
module ScriptLoader {
  import opened Options

  const LazyTimeoutMs := 1500

  datatype Strategy = BeforeInteractive | AfterInteractive | LazyOnload

  datatype ScriptProps = ScriptProps(
    src: string,
    id: Option<string>,
    async: bool,
    defer: bool,
    strategy: Option<Strategy>,
    hasOnLoad: bool,
    hasOnError: bool)

  /** `strategy = "afterInteractive"` as the default. */
  function StrategyOf(p: ScriptProps): Strategy {
    p.strategy.GetOr(AfterInteractive)
  }

  predicate HasId(p: ScriptProps) {
    p.id.Some? && p.id.value != ""
  }

  /** `id || src`: the id looked up in the document. */
  function LookupKey(p: ScriptProps): string {
    if HasId(p) then p.id.value else p.src
  }

  datatype ScriptElement = ScriptElement(src: string, id: Option<string>, async: bool, defer: bool)

  /** The element `loadScript` creates: `id` is set only when given. */
  function NewElement(p: ScriptProps): ScriptElement {
    ScriptElement(p.src, if HasId(p) then p.id else None, p.async, p.defer)
  }

  datatype Page = Page(ids: set<string>, body: seq<ScriptElement>, complete: bool, hasIdleCallback: bool)

  /** A `loadScript` scheduled by the `lazyOnload` branch: an idle callback or a timer. No cleanup ever cancels one. */
  datatype Deferred = IdleCallback | Timer(ms: nat)

  /** An appended script of this instance: still loading, or its `onload` or `onerror` has run. */
  datatype ScriptStatus = Loading | Settled

  /**
   * `listener`: the `load` listener of the last effect run, which that run's
   * cleanup removes, so there is at most one. `deferred`: every idle callback
   * or timer scheduled so far and not yet run. `scripts`: one entry per
   * script this instance appended, in order, each with its own handlers.
   */
  datatype LoaderState = LoaderState(
    loaded: bool,
    listener: bool,
    deferred: multiset<Deferred>,
    scripts: seq<ScriptStatus>,
    mounted: bool,
    onLoadCalls: nat,
    onErrorCalls: nat)

  datatype World = World(page: Page, loader: LoaderState)

  function Calls(given: bool): nat {
    if given then 1 else 0
  }

  /** `loadScript`: append the new element, whose id, when it has one, the page now holds. */
  function LoadScript(p: ScriptProps, w: World): World {
    var el := NewElement(p);
    w.(page := w.page.(body := w.page.body + [el], ids := w.page.ids + (if el.id.Some? then {el.id.value} else {})),
       loader := w.loader.(scripts := w.loader.scripts + [Loading]))
  }

  /** The cleanup the `afterInteractive` branch returns: it removes the `load` listener. Idle callbacks and timers stay. */
  function Cleanup(w: World): World {
    w.(loader := w.loader.(listener := false))
  }

  /** The effect body, run after a render whose dependencies changed. */
  function Effect(p: ScriptProps, w: World): World {
    if w.loader.loaded then w
    else if LookupKey(p) in w.page.ids then
      w.(loader := w.loader.(loaded := true, onLoadCalls := w.loader.onLoadCalls + Calls(p.hasOnLoad)))
    else
      match StrategyOf(p)
      case BeforeInteractive => LoadScript(p, w)
      case AfterInteractive =>
        if w.page.complete then LoadScript(p, w) else w.(loader := w.loader.(listener := true))
      case LazyOnload =>
        var d := if w.page.hasIdleCallback then IdleCallback else Timer(LazyTimeoutMs);
        w.(loader := w.loader.(deferred := w.loader.deferred + multiset{d}))
  }

  /** A change of `loaded` re-runs the effect of a mounted instance, after the previous run's cleanup. */
  function Rerun(p: ScriptProps, w: World): World {
    if w.loader.mounted then Effect(p, Cleanup(w)) else w
  }

  const InitialLoader := LoaderState(false, false, multiset{}, [], true, 0, 0)

  /** Mounting on a page: the first effect. */
  function Mount(p: ScriptProps, page: Page): World {
    var w := Effect(p, World(page, InitialLoader));
    if w.loader.loaded then Rerun(p, w) else w
  }

  /** `ScriptLoad(i)` and `ScriptError(i)` concern the `i`-th script this instance appended. */
  datatype ScriptEvent = WindowLoad | IdleFires | TimerFires(ms: nat) | ScriptLoad(i: nat) | ScriptError(i: nat) | Unmount

  /** One waiting idle callback or timer of kind `d`, if there is one, runs `loadScript`. */
  function FireDeferred(p: ScriptProps, w: World, d: Deferred): World {
    if d in w.loader.deferred then LoadScript(p, w.(loader := w.loader.(deferred := w.loader.deferred - multiset{d})))
    else w
  }

  function Step(p: ScriptProps, w: World, e: ScriptEvent): World {
    match e
    case WindowLoad =>
      // The page's `load` event happens once: the listener that runs is spent.
      var w1 := w.(page := w.page.(complete := true), loader := w.loader.(listener := false));
      if w.loader.listener then LoadScript(p, w1) else w1
    case IdleFires => FireDeferred(p, w, IdleCallback)
    case TimerFires(ms) => FireDeferred(p, w, Timer(ms))
    case ScriptLoad(i) =>
      if i < |w.loader.scripts| && w.loader.scripts[i] == Loading then
        var changed := !w.loader.loaded;
        var w1 := w.(loader := w.loader.(loaded := true, scripts := w.loader.scripts[i := Settled],
          onLoadCalls := w.loader.onLoadCalls + Calls(p.hasOnLoad)));
        if changed then Rerun(p, w1) else w1
      else w
    case ScriptError(i) =>
      if i < |w.loader.scripts| && w.loader.scripts[i] == Loading then
        w.(loader := w.loader.(scripts := w.loader.scripts[i := Settled],
          onErrorCalls := w.loader.onErrorCalls + Calls(p.hasOnError)))
      else w
    case Unmount =>
      var w1 := Cleanup(w);
      w1.(loader := w1.loader.(mounted := false))
  }

  function Run(p: ScriptProps, w: World, es: seq<ScriptEvent>): World
    decreases |es|
  {
    if es == [] then w else Run(p, Step(p, w, es[0]), es[1..])
  }

  // The effect's decisions

  /** Nothing happens when `loaded` is already true. */
  lemma LoadedDoesNothing(p: ScriptProps, w: World)
    requires w.loader.loaded
    ensures Effect(p, w) == w
  {
  }

  /** An element with id `id || src` already in the page: `loaded`, one `onLoad` call, nothing appended or awaited. */
  lemma ExistingElementReused(p: ScriptProps, w: World)
    requires !w.loader.loaded && LookupKey(p) in w.page.ids
    ensures Effect(p, w).loader.loaded
    ensures Effect(p, w).loader.onLoadCalls == w.loader.onLoadCalls + Calls(p.hasOnLoad)
    ensures Effect(p, w).page == w.page
    ensures Effect(p, w).loader.listener == w.loader.listener
    ensures Effect(p, w).loader.deferred == w.loader.deferred
  {
  }

  /**
   * On a page without the element, after the cleanup: `beforeInteractive`
   * appends at once; `afterInteractive` appends at once on a complete page and
   * otherwise registers a `load` listener; `lazyOnload` schedules one more idle
   * callback or, without `requestIdleCallback`, one more 1500 ms timer; waiting
   * appends nothing.
   */
  lemma StrategyDispatch(p: ScriptProps, w: World)
    requires !w.loader.loaded && LookupKey(p) !in w.page.ids
    requires !w.loader.listener
    ensures var w' := Effect(p, w);
      (StrategyOf(p) == BeforeInteractive || (StrategyOf(p) == AfterInteractive && w.page.complete) <==>
        w'.page.body == w.page.body + [NewElement(p)]) &&
      (StrategyOf(p) == AfterInteractive && !w.page.complete <==> w'.loader.listener) &&
      (StrategyOf(p) == LazyOnload && w.page.hasIdleCallback <==>
        w'.loader.deferred == w.loader.deferred + multiset{IdleCallback}) &&
      (StrategyOf(p) == LazyOnload && !w.page.hasIdleCallback <==>
        w'.loader.deferred == w.loader.deferred + multiset{Timer(1500)}) &&
      !w'.loader.loaded
  {
    var el := NewElement(p);
    assert |w.page.body + [el]| != |w.page.body|;
    assert |w.loader.deferred + multiset{IdleCallback}| != |w.loader.deferred|;
    assert |w.loader.deferred + multiset{Timer(1500)}| != |w.loader.deferred|;
    assert w.loader.deferred + multiset{IdleCallback} != w.loader.deferred + multiset{Timer(1500)} by {
      assert (w.loader.deferred + multiset{IdleCallback})[IdleCallback] == w.loader.deferred[IdleCallback] + 1;
      assert (w.loader.deferred + multiset{Timer(1500)})[IdleCallback] == w.loader.deferred[IdleCallback];
    }
  }

  /**
   * The `i`-th script's load sets `loaded` and calls `onLoad`; its error calls
   * only `onError` and leaves `loaded` as it was.
   */
  lemma LoadAndErrorEvents(p: ScriptProps, w: World, i: nat)
    requires i < |w.loader.scripts| && w.loader.scripts[i] == Loading
    ensures Step(p, w, ScriptLoad(i)).loader.loaded
    ensures Step(p, w, ScriptLoad(i)).loader.onLoadCalls == w.loader.onLoadCalls + Calls(p.hasOnLoad)
    ensures Step(p, w, ScriptLoad(i)).loader.onErrorCalls == w.loader.onErrorCalls
    ensures Step(p, w, ScriptError(i)).loader.loaded == w.loader.loaded
    ensures Step(p, w, ScriptError(i)).loader.onErrorCalls == w.loader.onErrorCalls + Calls(p.hasOnError)
    ensures Step(p, w, ScriptError(i)).loader.onLoadCalls == w.loader.onLoadCalls
  {
  }

  /** Unmounting removes a `load` listener, but an idle callback or timer stays and still appends the script. */
  lemma UnmountLeavesLazyCallbacks(p: ScriptProps, w: World)
    ensures !Step(p, w, Unmount).loader.listener
    ensures Step(p, w, Unmount).loader.deferred == w.loader.deferred
    ensures IdleCallback in w.loader.deferred ==>
      Run(p, w, [Unmount, IdleFires]).page.body == w.page.body + [NewElement(p)]
  {
    if IdleCallback in w.loader.deferred {
      var w1 := Step(p, w, Unmount);
      assert Run(p, w, [Unmount, IdleFires]) == Run(p, w1, [IdleFires]);
      assert Run(p, w1, [IdleFires]) == Step(p, w1, IdleFires);
    }
  }

  /** The new element carries an id exactly when a non-empty `id` is given. */
  lemma ElementIdOnlyWhenGiven(p: ScriptProps)
    ensures NewElement(p).id.Some? <==> HasId(p)
    ensures HasId(p) ==> NewElement(p).id.value == LookupKey(p)
    ensures NewElement(p).src == p.src
  {
  }

  /** Without an id, an appended script does not make `src` findable: the existence check still misses it. */
  lemma NoIdNotFound(p: ScriptProps, w: World)
    requires !HasId(p)
    ensures LoadScript(p, w).page.ids == w.page.ids
    ensures LookupKey(p) == p.src
  {
  }

  /**
   * Two `beforeInteractive` loaders without an id for the same `src` on one
   * page both append: the second does not find the first's script.
   */
  lemma SecondInstanceAppendsAgain(p: ScriptProps, page: Page)
    requires !HasId(p) && StrategyOf(p) == BeforeInteractive && p.src !in page.ids
    ensures var first := Mount(p, page);
      var second := Mount(p, first.page);
      second.page.body == page.body + [NewElement(p), NewElement(p)]
  {
    var first := Mount(p, page);
    assert first.page.ids == page.ids;
    assert first.page.body == page.body + [NewElement(p)];
  }

  /**
   * A parent render that passes new `onLoad` or `onError` functions changes
   * the dependencies, so the cleanup and the effect run again even though
   * `loaded` did not change.
   */
  function Rerender(p: ScriptProps, w: World): World {
    Rerun(p, w)
  }

  /** Such a render before the script has loaded appends a second copy when there is no id. */
  lemma RerenderWithoutIdAppendsAgain(p: ScriptProps, page: Page)
    requires !HasId(p) && StrategyOf(p) == BeforeInteractive && p.src !in page.ids
    ensures Rerender(p, Mount(p, page)).page.body == page.body + [NewElement(p), NewElement(p)]
  {
  }

  /**
   * With an id, such a render finds the script's own element and reports a
   * load before its `onload`; that `onload` then calls `onLoad` a second time.
   */
  lemma RerenderWithIdReportsEarlyLoad(p: ScriptProps, page: Page)
    requires HasId(p) && StrategyOf(p) == BeforeInteractive && p.id.value !in page.ids
    ensures var w := Rerender(p, Mount(p, page));
      w.loader.loaded && w.loader.scripts == [Loading] && w.loader.onLoadCalls == Calls(p.hasOnLoad) &&
      Step(p, w, ScriptLoad(0)).loader.onLoadCalls == 2 * Calls(p.hasOnLoad)
  {
  }

  /** The world a `lazyOnload` loader is in after mounting and one parent render, neither callback having run. */
  lemma LazyRerenderWaitsTwice(p: ScriptProps, page: Page)
    requires StrategyOf(p) == LazyOnload && page.hasIdleCallback && LookupKey(p) !in page.ids
    ensures Rerender(p, Mount(p, page)) == World(page, InitialLoader.(deferred := multiset{IdleCallback, IdleCallback}))
  {
    var w0 := World(page, InitialLoader.(deferred := multiset{IdleCallback}));
    assert Mount(p, page) == w0;
  }

  /**
   * A `lazyOnload` loader re-rendered before its idle callback ran has two
   * callbacks waiting, the cleanup cancelling neither: both append the
   * script, even with an id, and each script's `onload` calls `onLoad`.
   */
  lemma LazyRerenderAppendsTwice(p: ScriptProps, page: Page)
    requires StrategyOf(p) == LazyOnload && page.hasIdleCallback && LookupKey(p) !in page.ids
    ensures var w := Rerender(p, Mount(p, page));
      w.loader.deferred == multiset{IdleCallback, IdleCallback} &&
      Run(p, w, [IdleFires, IdleFires]).page.body == page.body + [NewElement(p), NewElement(p)] &&
      Run(p, w, [IdleFires, IdleFires, ScriptLoad(0), ScriptLoad(1)]).loader.onLoadCalls == 2 * Calls(p.hasOnLoad)
  {
    LazyRerenderWaitsTwice(p, page);
    var w := Rerender(p, Mount(p, page));
    TwoIdleCallbacksRun(p, w);
    TwoLoadsTwoCalls(p, Run(p, w, [IdleFires, IdleFires]));
    RunAppend(p, w, [IdleFires, IdleFires], [ScriptLoad(0), ScriptLoad(1)]);
    assert [IdleFires, IdleFires] + [ScriptLoad(0), ScriptLoad(1)] == [IdleFires, IdleFires, ScriptLoad(0), ScriptLoad(1)];
  }

  /** Two waiting idle callbacks each append a script. */
  lemma TwoIdleCallbacksRun(p: ScriptProps, w: World)
    requires w.loader == InitialLoader.(deferred := multiset{IdleCallback, IdleCallback})
    ensures Run(p, w, [IdleFires, IdleFires]).page.body == w.page.body + [NewElement(p), NewElement(p)]
    ensures Run(p, w, [IdleFires, IdleFires]).loader == InitialLoader.(scripts := [Loading, Loading])
  {
    var el := NewElement(p);
    var w1 := Step(p, w, IdleFires);
    assert multiset{IdleCallback, IdleCallback} - multiset{IdleCallback} == multiset{IdleCallback};
    assert w1.page.body == w.page.body + [el] && w1.loader == InitialLoader.(deferred := multiset{IdleCallback}, scripts := [Loading]);
    var w2 := Step(p, w1, IdleFires);
    assert w2.page.body == w.page.body + [el, el];
    RunCons(p, w, IdleFires, [IdleFires]);
    RunCons(p, w1, IdleFires, []);
  }

  /** Two loading scripts that both load call `onLoad` twice: the first `onload` sets `loaded`, the second finds it set. */
  lemma TwoLoadsTwoCalls(p: ScriptProps, w: World)
    requires w.loader == InitialLoader.(scripts := [Loading, Loading])
    ensures Run(p, w, [ScriptLoad(0), ScriptLoad(1)]).loader.onLoadCalls == 2 * Calls(p.hasOnLoad)
  {
    var w3 := Step(p, w, ScriptLoad(0));
    assert w3.loader.scripts == [Settled, Loading] && w3.loader.onLoadCalls == Calls(p.hasOnLoad);
    RunCons(p, w, ScriptLoad(0), [ScriptLoad(1)]);
    RunCons(p, w3, ScriptLoad(1), []);
  }

  lemma RunCons(p: ScriptProps, w: World, e: ScriptEvent, es: seq<ScriptEvent>)
    ensures Run(p, w, [e] + es) == Run(p, Step(p, w, e), es)
  {
    assert ([e] + es)[1..] == es;
  }

  lemma {:induction false} RunAppend(p: ScriptProps, w: World, xs: seq<ScriptEvent>, ys: seq<ScriptEvent>)
    ensures Run(p, w, xs + ys) == Run(p, Run(p, w, xs), ys)
    decreases |xs|
  {
    if xs == [] {
      assert xs + ys == ys;
    } else {
      assert (xs + ys)[1..] == xs[1..] + ys;
      RunAppend(p, Step(p, w, xs[0]), xs[1..], ys);
    }
  }

  // The invariant of one instance between re-renders

  /** `n` copies of `el`. */
  function Copies(el: ScriptElement, n: nat): (r: seq<ScriptElement>)
    ensures |r| == n && forall k :: 0 <= k < n ==> r[k] == el
  {
    if n == 0 then [] else [el] + Copies(el, n - 1)
  }

  /**
   * Relative to the page at mount (body `b0`): at most one script appended,
   * listener or callback waiting, the waiting ones only while nothing is
   * loaded; callbacks counted once at most, `onLoad` exactly when `loaded`
   * was set.
   */
  predicate Valid(p: ScriptProps, b0: seq<ScriptElement>, w: World) {
    var s := w.loader;
    w.page.body == b0 + Copies(NewElement(p), |s.scripts|) &&
    |s.scripts| + |s.deferred| + (if s.listener then 1 else 0) <= 1 &&
    ((s.listener || |s.deferred| > 0) ==> !s.loaded) &&
    (forall d | d in s.deferred :: d.Timer? ==> d.ms == LazyTimeoutMs) &&
    s.onLoadCalls == (if s.loaded then Calls(p.hasOnLoad) else 0) &&
    s.onErrorCalls <= Calls(p.hasOnError) &&
    (s.scripts == [] ==> s.onErrorCalls == 0) &&
    (s.scripts != [] && s.scripts[0] == Loading ==> !s.loaded && s.onErrorCalls == 0)
  }

  lemma AppendValid(p: ScriptProps, b0: seq<ScriptElement>, w: World)
    requires Valid(p, b0, w) && w.loader.scripts == [] && !w.loader.listener && w.loader.deferred == multiset{}
    requires !w.loader.loaded
    ensures Valid(p, b0, LoadScript(p, w))
  {
    var w' := LoadScript(p, w);
    assert w.page.body == b0;
    assert Copies(NewElement(p), 1) == [NewElement(p)];
    assert w'.page.body == b0 + [NewElement(p)];
  }

  lemma EffectValid(p: ScriptProps, b0: seq<ScriptElement>, w: World)
    requires Valid(p, b0, w)
    requires w.loader.loaded || (w.loader.scripts == [] && !w.loader.listener && w.loader.deferred == multiset{})
    ensures Valid(p, b0, Effect(p, w))
  {
    if !w.loader.loaded && LookupKey(p) !in w.page.ids {
      if StrategyOf(p) == BeforeInteractive || (StrategyOf(p) == AfterInteractive && w.page.complete) {
        AppendValid(p, b0, w);
      }
    }
  }

  lemma MountValid(p: ScriptProps, page: Page)
    ensures Valid(p, page.body, Mount(p, page))
  {
    var w0 := World(page, InitialLoader);
    assert page.body + Copies(NewElement(p), 0) == page.body;
    EffectValid(p, page.body, w0);
  }

  /** A multiset of at most one element that holds `d` is `{d}`. */
  lemma OnlyDeferred(m: multiset<Deferred>, d: Deferred)
    requires d in m && |m| <= 1
    ensures m == multiset{d}
  {
    var rest := m - multiset{d};
    assert m == rest + multiset{d};
    assert |rest| == 0;
  }

  lemma StepValid(p: ScriptProps, b0: seq<ScriptElement>, w: World, e: ScriptEvent)
    requires Valid(p, b0, w)
    ensures Valid(p, b0, Step(p, w, e))
  {
    match e
    case WindowLoad =>
      if w.loader.listener {
        AppendValid(p, b0, w.(page := w.page.(complete := true), loader := w.loader.(listener := false)));
      }
    case IdleFires =>
      if IdleCallback in w.loader.deferred {
        OnlyDeferred(w.loader.deferred, IdleCallback);
        AppendValid(p, b0, w.(loader := w.loader.(deferred := multiset{})));
      }
    case TimerFires(ms) =>
      if Timer(ms) in w.loader.deferred {
        OnlyDeferred(w.loader.deferred, Timer(ms));
        AppendValid(p, b0, w.(loader := w.loader.(deferred := multiset{})));
      }
    case ScriptLoad(i) =>
    case ScriptError(i) =>
    case Unmount =>
  }

  /**
   * Along any run of browser events from mounting without a parent re-render,
   * the instance appends at most one script and calls each callback at most once.
   */
  lemma {:induction false} RunValid(p: ScriptProps, b0: seq<ScriptElement>, w: World, es: seq<ScriptEvent>)
    requires Valid(p, b0, w)
    ensures Valid(p, b0, Run(p, w, es))
    ensures |Run(p, w, es).page.body| <= |b0| + 1
    ensures Run(p, w, es).loader.onLoadCalls <= 1 && Run(p, w, es).loader.onErrorCalls <= 1
    decreases |es|
  {
    if es != [] {
      StepValid(p, b0, w, es[0]);
      RunValid(p, b0, Step(p, w, es[0]), es[1..]);
    }
  }

  /** Whatever browser events follow mounting, with no parent re-render, at most one script element is added. */
  lemma AtMostOneScript(p: ScriptProps, page: Page, es: seq<ScriptEvent>)
    ensures |Run(p, Mount(p, page), es).page.body| <= |page.body| + 1
    ensures Run(p, Mount(p, page), es).loader.onLoadCalls <= 1
  {
    MountValid(p, page);
    RunValid(p, page.body, Mount(p, page), es);
  }

  /** The component instance on its page. */
  class ScriptLoaderComponent {
    const props: ScriptProps
    var ids: set<string>
    var body: seq<ScriptElement>
    var complete: bool
    const hasIdleCallback: bool
    var loaded: bool
    var listener: bool
    var deferred: multiset<Deferred>
    var scripts: seq<ScriptStatus>
    var mounted: bool
    var onLoadCalls: nat
    var onErrorCalls: nat

    function State(): World
      reads this
    {
      World(Page(ids, body, complete, hasIdleCallback),
        LoaderState(loaded, listener, deferred, scripts, mounted, onLoadCalls, onErrorCalls))
    }

    /** Mounting: `useState(false)` and the first effect. */
    constructor (p: ScriptProps, page: Page)
      ensures props == p && State() == Mount(p, page)
    {
      props := p;
      ids, body, complete, hasIdleCallback := page.ids, page.body, page.complete, page.hasIdleCallback;
      loaded, listener, deferred, scripts := false, false, multiset{}, [];
      mounted, onLoadCalls, onErrorCalls := true, 0, 0;
      new;
      RunEffect();
      if loaded {
        RerunEffect();
      }
    }

    /** `loadScript`. */
    method AppendScript()
      modifies this
      ensures State() == LoadScript(props, old(State()))
    {
      var el := NewElement(props);
      body := body + [el];
      if el.id.Some? {
        ids := ids + {el.id.value};
      }
      scripts := scripts + [Loading];
    }

    /** The effect body. */
    method RunEffect()
      modifies this
      ensures State() == Effect(props, old(State()))
    {
      if loaded {
        return;
      }
      if LookupKey(props) in ids {
        loaded := true;
        onLoadCalls := onLoadCalls + Calls(props.hasOnLoad);
        return;
      }
      var strategy := StrategyOf(props);
      if strategy == BeforeInteractive {
        AppendScript();
      } else if strategy == AfterInteractive {
        if complete {
          AppendScript();
        } else {
          listener := true;
        }
      } else {
        if hasIdleCallback {
          deferred := deferred + multiset{IdleCallback};
        } else {
          deferred := deferred + multiset{Timer(LazyTimeoutMs)};
        }
      }
    }

    /** The previous run's cleanup, then the effect, when mounted. */
    method RerunEffect()
      modifies this
      ensures State() == Rerun(props, old(State()))
    {
      if mounted {
        listener := false;
        RunEffect();
      }
    }

    /** The window's `load` event. */
    method OnWindowLoad()
      modifies this
      ensures State() == Step(props, old(State()), WindowLoad)
    {
      complete := true;
      if listener {
        listener := false;
        AppendScript();
      }
    }

    /** One waiting callback of kind `d` runs `loadScript`. */
    method RunDeferred(d: Deferred)
      modifies this
      ensures State() == FireDeferred(props, old(State()), d)
    {
      if d in deferred {
        deferred := deferred - multiset{d};
        AppendScript();
      }
    }

    method OnIdle()
      modifies this
      ensures State() == Step(props, old(State()), IdleFires)
    {
      RunDeferred(IdleCallback);
    }

    method OnTimer(ms: nat)
      modifies this
      ensures State() == Step(props, old(State()), TimerFires(ms))
    {
      RunDeferred(Timer(ms));
    }

    /** A parent render with new callback functions. */
    method OnRerender()
      modifies this
      ensures State() == Rerender(props, old(State()))
    {
      RerunEffect();
    }

    /** The `onload` of the `i`-th appended script. */
    method OnScriptLoad(i: nat)
      modifies this
      ensures State() == Step(props, old(State()), ScriptLoad(i))
    {
      if i < |scripts| && scripts[i] == Loading {
        var changed := !loaded;
        loaded := true;
        scripts := scripts[i := Settled];
        onLoadCalls := onLoadCalls + Calls(props.hasOnLoad);
        if changed {
          RerunEffect();
        }
      }
    }

    /** The `onerror` of the `i`-th appended script. */
    method OnScriptError(i: nat)
      modifies this
      ensures State() == Step(props, old(State()), ScriptError(i))
    {
      if i < |scripts| && scripts[i] == Loading {
        scripts := scripts[i := Settled];
        onErrorCalls := onErrorCalls + Calls(props.hasOnError);
      }
    }

    /** Unmounting runs the last cleanup. */
    method OnUnmount()
      modifies this
      ensures State() == Step(props, old(State()), Unmount)
    {
      listener := false;
      mounted := false;
    }
  }
}
