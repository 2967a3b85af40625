/** The page's side of the update flow (app.js, `handleServiceWorkerUpdates`
    and `showUpdateBanner`): host events go in, and the three side effects the
    page can cause (showing the update banner, reloading, posting the
    SKIP_WAITING message) come out as a trace. */
module UpdateFlow {
  import opened Wrappers

  /** Identifies one worker object handed out by the registration. */
  type WorkerId = nat

  /** The `state` attribute of a service worker. */
  datatype WorkerState = Parsed | Installing | Installed | Activating | Activated | Redundant

  datatype Effect = ShowBanner | Reload | PostSkipWaiting

  /** The host events the page listens to. Each carries the host state its
      handler reads: `registration.installing`, `serviceWorker.controller`,
      `registration.waiting`. */
  datatype Event =
    | RegistrationSettled(ok: bool)
    | UpdateFound(installing: Option<WorkerId>)
    | StateChange(worker: WorkerId, state: WorkerState, hasController: bool)
    | ControllerChange
    | ReloadClick(hasWaiting: bool)

  /** `supported`: the browser has `navigator.serviceWorker`; `bannerInDom`:
      the banner and its reload button exist in the page; `registered`: the
      `onupdatefound` handler is set; `watched`: workers with an
      `onstatechange` handler; `clickBound`: the reload button's `onclick` is
      set; `refreshing`: the reload latch. */
  datatype PageState = PageState(
    supported: bool,
    bannerInDom: bool,
    registered: bool,
    watched: set<WorkerId>,
    clickBound: bool,
    refreshing: bool,
    effects: seq<Effect>)

  /** The state right after `handleServiceWorkerUpdates()` ran. */
  function Initial(supported: bool, bannerInDom: bool): PageState
  {
    PageState(supported, bannerInDom, false, {}, false, false, [])
  }

  /** The guard of the `statechange` handler: the worker is installed and an
      earlier worker already controls the page (an update, not a first install). */
  predicate BannerRule(state: WorkerState, hasController: bool)
  {
    state == Installed && hasController
  }

  function ShowUpdateBanner(s: PageState): PageState
  {
    if s.bannerInDom then s.(effects := s.effects + [ShowBanner], clickBound := true) else s
  }

  /** One event and its handler. The trace only grows, by at most one effect,
      and what the page was loaded with does not change. */
  function Step(s: PageState, e: Event): (r: PageState)
    ensures s.effects <= r.effects && |r.effects| <= |s.effects| + 1
    ensures r.supported == s.supported && r.bannerInDom == s.bannerInDom
    ensures s.watched <= r.watched
    ensures s.registered ==> r.registered
  {
    match e
    case RegistrationSettled(ok) =>
      if s.supported && ok then s.(registered := true) else s
    case UpdateFound(installing) =>
      if s.registered && installing.Some? then s.(watched := s.watched + {installing.value}) else s
    case StateChange(w, state, hasController) =>
      if w in s.watched && BannerRule(state, hasController) then ShowUpdateBanner(s) else s
    case ControllerChange =>
      if s.supported && !s.refreshing then s.(effects := s.effects + [Reload], refreshing := true) else s
    case ReloadClick(hasWaiting) =>
      if s.clickBound && hasWaiting then s.(effects := s.effects + [PostSkipWaiting]) else s
  }

  /** The events in order. The trace only grows, by at most one effect per
      event, and a registration or a watched worker is never forgotten. */
  function Run(s: PageState, events: seq<Event>): (r: PageState)
    ensures s.effects <= r.effects && |r.effects| <= |s.effects| + |events|
    ensures r.supported == s.supported && r.bannerInDom == s.bannerInDom
    ensures s.watched <= r.watched
    ensures s.registered ==> r.registered
    decreases |events|
  {
    if events == [] then s else Run(Step(s, events[0]), events[1..])
  }

  /** How often `e` occurs in the trace. */
  function Count(effects: seq<Effect>, e: Effect): nat
  {
    if effects == [] then 0
    else Count(effects[..|effects| - 1], e) + (if effects[|effects| - 1] == e then 1 else 0)
  }

  lemma CountAppend(effects: seq<Effect>, x: Effect, e: Effect)
    ensures Count(effects + [x], e) == Count(effects, e) + (if x == e then 1 else 0)
  {
    assert (effects + [x])[..|effects|] == effects;
  }

  /** A registration is remembered exactly when service workers exist and
      `register` succeeded; a worker is watched only once it was the
      `registration.installing` of an `updatefound` after a successful
      registration, and then it always is. */
  lemma RegistrationWatchesInstalling(s: PageState, e: Event, w: WorkerId, ok: bool)
    ensures Step(s, RegistrationSettled(ok)).registered <==> s.registered || (s.supported && ok)
    ensures w in Step(s, e).watched && w !in s.watched ==> s.registered && e == UpdateFound(Some(w))
    ensures s.registered ==> w in Step(s, UpdateFound(Some(w))).watched
    ensures !s.registered ==> Step(s, UpdateFound(Some(w))).watched == s.watched
  {
  }

  /** The banner is shown exactly when a watched worker reaches "installed"
      while a controller exists (and the banner is in the page); nothing else
      happens on a state change. */
  lemma BannerShownExactly(s: PageState, w: WorkerId, state: WorkerState, hasController: bool)
    ensures var r := Step(s, StateChange(w, state, hasController));
      && (Count(r.effects, ShowBanner) == Count(s.effects, ShowBanner) + 1 <==>
            w in s.watched && state == Installed && hasController && s.bannerInDom)
      && (Count(r.effects, ShowBanner) == Count(s.effects, ShowBanner) <==>
            !(w in s.watched && state == Installed && hasController && s.bannerInDom))
      && Count(r.effects, Reload) == Count(s.effects, Reload)
      && Count(r.effects, PostSkipWaiting) == Count(s.effects, PostSkipWaiting)
  {
    CountAppend(s.effects, ShowBanner, ShowBanner);
    CountAppend(s.effects, ShowBanner, Reload);
    CountAppend(s.effects, ShowBanner, PostSkipWaiting);
  }

  predicate NoController(e: Event)
  {
    e.StateChange? ==> !e.hasController
  }

  /** While no worker controls the page (a first install), no sequence of
      events ever shows the banner. */
  lemma {:induction false} FirstInstallNoBanner(s: PageState, events: seq<Event>)
    requires forall i :: 0 <= i < |events| ==> NoController(events[i])
    ensures Count(Run(s, events).effects, ShowBanner) == Count(s.effects, ShowBanner)
    decreases |events|
  {
    if events != [] {
      var t := Step(s, events[0]);
      assert Count(t.effects, ShowBanner) == Count(s.effects, ShowBanner) by {
        match events[0]
        case ControllerChange => CountAppend(s.effects, Reload, ShowBanner);
        case ReloadClick(_) => CountAppend(s.effects, PostSkipWaiting, ShowBanner);
        case _ =>
      }
      FirstInstallNoBanner(t, events[1..]);
    }
  }

  /** The latch and the trace agree: the page has reloaded once if the latch
      is set, and not at all otherwise. */
  ghost predicate LatchAgrees(s: PageState)
  {
    (s.refreshing ==> s.supported && Count(s.effects, Reload) == 1) &&
    (!s.refreshing ==> Count(s.effects, Reload) == 0)
  }

  lemma StepKeepsLatch(s: PageState, e: Event)
    requires LatchAgrees(s)
    ensures LatchAgrees(Step(s, e))
    ensures Step(s, e).refreshing <==> s.refreshing || (s.supported && e == ControllerChange)
    ensures Step(s, e).supported == s.supported
  {
    match e
    case ControllerChange => CountAppend(s.effects, Reload, Reload);
    case ReloadClick(_) => CountAppend(s.effects, PostSkipWaiting, Reload);
    case StateChange(_, _, _) => CountAppend(s.effects, ShowBanner, Reload);
    case _ =>
  }

  /** Over any events, `reload` fires once when there is at least one
      `controllerchange` (and the page listens for it), and never more. */
  lemma {:induction false} ReloadOnce(s: PageState, events: seq<Event>)
    requires LatchAgrees(s)
    ensures Count(Run(s, events).effects, Reload) ==
      if s.refreshing || (s.supported && ControllerChange in events) then 1 else 0
    ensures LatchAgrees(Run(s, events))
    decreases |events|
  {
    if events != [] {
      StepKeepsLatch(s, events[0]);
      ReloadOnce(Step(s, events[0]), events[1..]);
      assert ControllerChange in events <==> events[0] == ControllerChange || ControllerChange in events[1..] by {
        assert events == [events[0]] + events[1..];
      }
    }
  }

  /** From page load: one reload exactly when a `controllerchange` arrives. */
  lemma ReloadOnceFromLoad(supported: bool, bannerInDom: bool, events: seq<Event>)
    ensures Count(Run(Initial(supported, bannerInDom), events).effects, Reload) ==
      if supported && ControllerChange in events then 1 else 0
  {
    ReloadOnce(Initial(supported, bannerInDom), events);
  }

  /** The reload button is armed exactly when the banner has been shown. */
  ghost predicate ButtonAgrees(s: PageState)
  {
    s.clickBound <==> Count(s.effects, ShowBanner) > 0
  }

  lemma {:induction false} RunKeepsButton(s: PageState, events: seq<Event>)
    requires ButtonAgrees(s)
    ensures ButtonAgrees(Run(s, events))
    decreases |events|
  {
    if events != [] {
      var t := Step(s, events[0]);
      assert ButtonAgrees(t) by {
        match events[0]
        case ControllerChange => CountAppend(s.effects, Reload, ShowBanner);
        case ReloadClick(_) => CountAppend(s.effects, PostSkipWaiting, ShowBanner);
        case StateChange(_, _, _) => CountAppend(s.effects, ShowBanner, ShowBanner);
        case _ =>
      }
      RunKeepsButton(t, events[1..]);
    }
  }

  /** A click on the reload button posts exactly one SKIP_WAITING message when
      a waiting worker exists and the banner has been shown, and none otherwise. */
  lemma ClickPostsOnce(s: PageState, hasWaiting: bool)
    requires ButtonAgrees(s)
    ensures var r := Step(s, ReloadClick(hasWaiting));
      && Count(r.effects, PostSkipWaiting) ==
           Count(s.effects, PostSkipWaiting) + (if hasWaiting && Count(s.effects, ShowBanner) > 0 then 1 else 0)
      && Count(r.effects, Reload) == Count(s.effects, Reload)
      && Count(r.effects, ShowBanner) == Count(s.effects, ShowBanner)
  {
    CountAppend(s.effects, PostSkipWaiting, PostSkipWaiting);
    CountAppend(s.effects, PostSkipWaiting, Reload);
    CountAppend(s.effects, PostSkipWaiting, ShowBanner);
  }

  /** The page controller, with the handlers `handleServiceWorkerUpdates`
      installs as methods over its fields. */
  class PageController {
    var supported: bool
    var bannerInDom: bool
    var registered: bool
    var watched: set<WorkerId>
    var clickBound: bool
    var refreshing: bool
    var effects: seq<Effect>

    function State(): PageState
      reads this
    {
      PageState(supported, bannerInDom, registered, watched, clickBound, refreshing, effects)
    }

    /** `handleServiceWorkerUpdates()` at page load. */
    constructor (supported: bool, bannerInDom: bool)
      ensures State() == Initial(supported, bannerInDom)
    {
      this.supported := supported;
      this.bannerInDom := bannerInDom;
      registered := false;
      watched := {};
      clickBound := false;
      refreshing := false;
      effects := [];
    }

    /** The `register` promise settles; on success `onupdatefound` is set. */
    method OnRegistration(ok: bool)
      modifies this
      ensures State() == Step(old(State()), RegistrationSettled(ok))
    {
      if supported && ok {
        registered := true;
      }
    }

    /** `onupdatefound`: watch the installing worker, if there is one. */
    method OnUpdateFound(installing: Option<WorkerId>)
      modifies this
      ensures State() == Step(old(State()), UpdateFound(installing))
    {
      if !registered || installing.None? {
        return;
      }
      watched := watched + {installing.value};
    }

    /** `onstatechange` of a watched worker. */
    method OnStateChange(w: WorkerId, state: WorkerState, hasController: bool)
      modifies this
      ensures State() == Step(old(State()), StateChange(w, state, hasController))
    {
      if w in watched && state == Installed && hasController {
        ShowBanner();
      }
    }

    /** `showUpdateBanner`: reveal the banner and arm the reload button. */
    method ShowBanner()
      modifies this
      ensures State() == ShowUpdateBanner(old(State()))
    {
      if !bannerInDom {
        return;
      }
      effects := effects + [Effect.ShowBanner];
      clickBound := true;
    }

    /** The `controllerchange` listener and its one-shot latch. */
    method OnControllerChange()
      modifies this
      ensures State() == Step(old(State()), ControllerChange)
    {
      if !supported || refreshing {
        return;
      }
      effects := effects + [Reload];
      refreshing := true;
    }

    /** The reload button's `onclick`: post SKIP_WAITING to the waiting worker. */
    method OnReloadClick(hasWaiting: bool)
      modifies this
      ensures State() == Step(old(State()), ReloadClick(hasWaiting))
    {
      if clickBound && hasWaiting {
        effects := effects + [PostSkipWaiting];
      }
    }
  }
}
