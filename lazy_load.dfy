/**
 * The lazy-mount wrapper: `isVisible` starts as `!enabled`, the effect forces
 * it on when lazy loading is disabled and otherwise connects an intersection
 * observer while a container exists and nothing is visible yet, and the
 * first intersecting entry makes the content visible and disconnects the
 * observer. The browser is reduced to the two events that reach the
 * component: the container ref being set, and an entry delivered to a
 * connected observer. `threshold`, `rootMargin` and the class names are
 * passed to the browser unchanged and are left out.
 */
module LazyLoad {
  datatype LazyProps = LazyProps(enabled: bool, hasPlaceholder: bool)

  /** The two state hooks and whether an observer is connected. */
  datatype LazyState = LazyState(isVisible: bool, hasContainer: bool, observing: bool)

  datatype LazyEvent = ContainerSet | Entry(isIntersecting: bool)

  /** The state of the first render, before any effect: `useState(!enabled)` and no container. */
  function FirstRender(p: LazyProps): LazyState {
    LazyState(!p.enabled, false, false)
  }

  /**
   * The effect, run after a render whose dependencies changed: the previous
   * run's cleanup disconnects its observer, then a disabled wrapper shows its
   * content, and an enabled one observes its container unless there is none
   * or the content is already visible.
   */
  function Effect(p: LazyProps, s: LazyState): LazyState {
    var cleaned := s.(observing := false);
    if !p.enabled then cleaned.(isVisible := true)
    else if !cleaned.hasContainer || cleaned.isVisible then cleaned
    else cleaned.(observing := true)
  }

  /** The mounted component: the effect after the first render. */
  function Mounted(p: LazyProps): LazyState {
    Effect(p, FirstRender(p))
  }

  /**
   * One event. Setting the ref changes `containerRef` and re-runs the effect. An
   * entry reaches only a connected observer; an intersecting one sets
   * `isVisible` and disconnects, and the changed `isVisible` re-runs the effect.
   */
  function Step(p: LazyProps, s: LazyState, e: LazyEvent): LazyState {
    match e
    case ContainerSet =>
      if s.hasContainer then s else Effect(p, s.(hasContainer := true))
    case Entry(intersecting) =>
      if s.observing && intersecting then Effect(p, s.(isVisible := true, observing := false)) else s
  }

  function Run(p: LazyProps, s: LazyState, es: seq<LazyEvent>): LazyState
    decreases |es|
  {
    if es == [] then s else Run(p, Step(p, s, es[0]), es[1..])
  }

  datatype Content = Children | Placeholder | Skeleton

  /** `isVisible ? children : placeholder || <skeleton>`. */
  function Render(p: LazyProps, s: LazyState): Content {
    if s.isVisible then Children else if p.hasPlaceholder then Placeholder else Skeleton
  }

  /** What every reachable state satisfies: an observer is connected only while an enabled wrapper with a container waits. */
  predicate Valid(p: LazyProps, s: LazyState) {
    (s.observing ==> p.enabled && s.hasContainer && !s.isVisible) &&
    (!p.enabled ==> s.isVisible)
  }

  /** `isVisible` starts as `!enabled`, and a mounted wrapper satisfies the invariant. */
  lemma MountedState(p: LazyProps)
    ensures FirstRender(p).isVisible == !p.enabled
    ensures Mounted(p).isVisible == !p.enabled
    ensures !Mounted(p).observing
    ensures Valid(p, Mounted(p))
  {
  }

  /** Every event keeps the invariant, and `isVisible` never goes from true back to false. */
  lemma StepValid(p: LazyProps, s: LazyState, e: LazyEvent)
    requires Valid(p, s)
    ensures Valid(p, Step(p, s, e))
    ensures s.isVisible ==> Step(p, s, e).isVisible
  {
  }

  /** Along any run the invariant holds, and visibility once reached is kept. */
  lemma {:induction false} RunValid(p: LazyProps, s: LazyState, es: seq<LazyEvent>)
    requires Valid(p, s)
    ensures Valid(p, Run(p, s, es))
    ensures s.isVisible ==> Run(p, s, es).isVisible
    decreases |es|
  {
    if es != [] {
      StepValid(p, s, es[0]);
      RunValid(p, Step(p, s, es[0]), es[1..]);
    }
  }

  /** When lazy loading is disabled the content is shown after any events. */
  lemma DisabledAlwaysVisible(p: LazyProps, es: seq<LazyEvent>)
    requires !p.enabled
    ensures Run(p, Mounted(p), es).isVisible
    ensures Render(p, Run(p, Mounted(p), es)) == Children
  {
    MountedState(p);
    RunValid(p, Mounted(p), es);
  }

  /** Once the content is visible no observer is connected again, whatever follows. */
  lemma NoObserverOnceVisible(p: LazyProps, s: LazyState, es: seq<LazyEvent>)
    requires Valid(p, s) && s.isVisible
    ensures !Run(p, s, es).observing
  {
    RunValid(p, s, es);
  }

  /** Setting the container of an enabled, hidden wrapper connects the observer. */
  lemma ContainerStartsObserving(p: LazyProps)
    requires p.enabled
    ensures Step(p, Mounted(p), ContainerSet).observing
    ensures !Step(p, Mounted(p), ContainerSet).isVisible
  {
  }

  /** An intersecting entry shows the content and disconnects; any other entry changes nothing. */
  lemma EntryEffect(p: LazyProps, s: LazyState, intersecting: bool)
    requires Valid(p, s) && s.observing
    ensures intersecting ==> Step(p, s, Entry(intersecting)).isVisible && !Step(p, s, Entry(intersecting)).observing
    ensures !intersecting ==> Step(p, s, Entry(intersecting)) == s
  {
  }

  /** Without an intersecting entry an enabled wrapper never shows its content. */
  lemma {:induction false} HiddenUntilIntersecting(p: LazyProps, s: LazyState, es: seq<LazyEvent>)
    requires p.enabled && !s.isVisible
    requires forall k :: 0 <= k < |es| ==> es[k] != Entry(true)
    ensures !Run(p, s, es).isVisible
    decreases |es|
  {
    if es != [] {
      assert forall k :: 0 <= k < |es[1..]| ==> es[1..][k] == es[k + 1];
      HiddenUntilIntersecting(p, Step(p, s, es[0]), es[1..]);
    }
  }

  /** The children are rendered exactly when visible; otherwise the placeholder if given, else the skeleton. */
  lemma RenderChoice(p: LazyProps, s: LazyState)
    ensures Render(p, s) == Children <==> s.isVisible
    ensures Render(p, s) == Placeholder <==> !s.isVisible && p.hasPlaceholder
    ensures Render(p, s) == Skeleton <==> !s.isVisible && !p.hasPlaceholder
  {
  }

  /** The component instance and its hooks. */
  class LazyLoadComponent {
    const props: LazyProps
    var isVisible: bool
    var hasContainer: bool
    var observing: bool

    function State(): LazyState
      reads this
    {
      LazyState(isVisible, hasContainer, observing)
    }

    /** The first render with `useState(!enabled)`, then the effect. */
    constructor (p: LazyProps)
      ensures props == p && State() == Mounted(p)
    {
      props := p;
      isVisible, hasContainer, observing := !p.enabled, false, false;
      new;
      RunEffect();
    }

    /** The effect body and the cleanup of its previous run. */
    method RunEffect()
      modifies this
      ensures State() == Effect(props, old(State()))
    {
      observing := false;
      if !props.enabled {
        isVisible := true;
        return;
      }
      if !hasContainer || isVisible {
        return;
      }
      observing := true;
    }

    /** The ref callback `setContainerRef`. */
    method SetContainerRef()
      modifies this
      ensures State() == Step(props, old(State()), ContainerSet)
    {
      if !hasContainer {
        hasContainer := true;
        RunEffect();
      }
    }

    /** The observer callback for one entry. */
    method OnEntry(intersecting: bool)
      modifies this
      ensures State() == Step(props, old(State()), Entry(intersecting))
    {
      if observing && intersecting {
        isVisible := true;
        observing := false;
        RunEffect();
      }
    }

    function View(): Content
      reads this
    {
      Render(props, State())
    }
  }
}
