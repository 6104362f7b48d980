/**
 * The classes of link_preview.js. Each keeps the fields the source updates in place
 * and is proved to change them exactly as the matching function of `PreviewModel` says.
 */
module PreviewClasses {
  import opened Wrappers
  import opened Text
  import opened Timers
  import opened LinkUrls
  import opened PreviewModel

  /** `PreviewFrame`: the panel, its lock, its URL bookkeeping and three timers. */
  class PreviewFrame {
    const showTimer: Timer
    const hideTimer: Timer
    const updateTimer: Timer
    var display: bool
    var locked: bool
    var src: string
    var visible: bool
    var marginApplied: bool
    var state: PreviewState

    /** Each timer is bound to its own callback, so the three are distinct objects. */
    predicate Valid() {
      && showTimer.callback == ShowFrame
      && hideTimer.callback == HideFrame
      && updateTimer.callback == UpdateFrame
    }

    ghost function Repr(): set<object> {
      {this, showTimer, hideTimer, updateTimer}
    }

    function View(): FrameView
      reads this, showTimer, hideTimer, updateTimer
    {
      FrameView(display, locked, src, visible, marginApplied, state,
                showTimer.State(), hideTimer.State(), updateTimer.State())
    }

    constructor (cfg: Config)
      ensures Valid() && fresh(Repr() - {this})
      ensures View() == NewFrame(cfg)
    {
      display := false;
      src := "";
      visible := false;
      marginApplied := false;
      state := NoUrls;
      locked := cfg.keepPreviewFrameOpen;
      showTimer := new Timer(ShowFrame, cfg.frameDisplayDelay);
      hideTimer := new Timer(HideFrame, cfg.frameDisplayTime);
      updateTimer := new Timer(UpdateFrame, cfg.frameUpdateTime);
    }

    /** `_setPreviewState(patch)`. */
    method SetPreviewState(patch: PreviewState)
      modifies this
      ensures state == Merge(old(state), patch)
      ensures display == old(display) && locked == old(locked) && src == old(src)
      ensures visible == old(visible) && marginApplied == old(marginApplied)
    {
      if patch.currentHoveredUrl.Some? { state := state.(currentHoveredUrl := patch.currentHoveredUrl); }
      if patch.pendingUrl.Some? { state := state.(pendingUrl := patch.pendingUrl); }
      if patch.previewShowPageUrl.Some? { state := state.(previewShowPageUrl := patch.previewShowPageUrl); }
      if patch.lastHoveredUrl.Some? { state := state.(lastHoveredUrl := patch.lastHoveredUrl); }
    }

    /** `_shouldIgnoreUrl(url)`: walks the filter list and stops at the first entry the URL contains. */
    method ShouldIgnoreUrl(url: Url, filterList: seq<string>) returns (ignore: bool)
      ensures ignore <==> exists k :: 0 <= k < |filterList| && Contains(url, filterList[k])
      ensures ignore == AnyContained(url, filterList)
    {
      var i := 0;
      while i < |filterList|
        invariant 0 <= i <= |filterList|
        invariant forall k :: 0 <= k < i ==> !Contains(url, filterList[k])
      {
        if Contains(url, filterList[i]) {
          return true;
        }
        i := i + 1;
      }
      return false;
    }

    /** `show(url)`. */
    method Show(url: Option<Url>)
      requires Valid()
      modifies this, showTimer, hideTimer
      ensures View() == FrameShow(old(View()), url)
    {
      SetPreviewState(NoUrls.(pendingUrl := url));
      showTimer.Start(url);
      hideTimer.Stop();
    }

    /** `_show(url)`. */
    method ShowNow(url: Option<Url>, autoplay: bool)
      requires Valid()
      modifies this
      ensures View() == FrameShowNow(old(View()), url, autoplay)
    {
      marginApplied := true;
      display := true;
      if url.Some? {
        src := FrameSource(url.value, autoplay);
        visible := true;
        SetPreviewState(NoUrls.(previewShowPageUrl := url));
      }
    }

    /** The panel's part of `updatePreviewSettings()`. */
    method ApplySettings(cfg: Config)
      requires Valid()
      modifies this, showTimer, hideTimer, updateTimer
      ensures View() == FrameSettingsApplied(old(View()), cfg)
    {
      showTimer.UpdateTimeout(cfg.frameDisplayDelay);
      hideTimer.UpdateTimeout(cfg.frameDisplayTime);
      updateTimer.UpdateTimeout(cfg.frameUpdateTime);
      if display {
        marginApplied := true;
      }
    }

    /** `_hide()`; also the hide button. */
    method HideNow()
      modifies this
      ensures View() == FrameHideNow(old(View()))
    {
      display := false;
      src := "about:blank";
      visible := false;
      marginApplied := false;
    }

    /** `hide()`. */
    method Hide(previewEnabled: bool)
      requires Valid()
      modifies this, showTimer, hideTimer, updateTimer
      ensures View() == FrameHide(old(View()), previewEnabled)
    {
      if !previewEnabled {
        HideNow();
        showTimer.Stop();
        updateTimer.Stop();
      } else if !locked {
        hideTimer.Start(None);
        showTimer.Stop();
        updateTimer.Stop();
      }
    }

    /** `update(url)`. */
    method Update(url: Option<Url>)
      requires Valid()
      modifies this, hideTimer, updateTimer
      ensures View() == FrameUpdate(old(View()), url)
    {
      if state.currentHoveredUrl == state.previewShowPageUrl {
        return;
      }
      SetPreviewState(NoUrls.(pendingUrl := url));
      hideTimer.Stop();
      updateTimer.Start(url);
    }

    /** `_update(url)`; `dom.frameHovered` is the `:hover` test. */
    method UpdateNow(url: Option<Url>, dom: Dom, cfg: Config)
      requires Valid()
      modifies this, showTimer, hideTimer, updateTimer
      ensures View() == FrameUpdateNow(old(View()), url, dom, cfg)
    {
      if dom.frameHovered {
        return;
      }
      if state.pendingUrl == state.currentHoveredUrl {
        ShowNow(url, cfg.youtubeAutoplay);
      } else if Truthy(state.currentHoveredUrl) {
        Update(state.currentHoveredUrl);
      }
      Hide(cfg.previewEnabled);
    }

    /** `_exec` of the show timer on its pending call `k`. */
    method FireShow(k: nat, autoplay: bool)
      requires Valid() && k < |showTimer.scheduled|
      modifies this, showTimer
      ensures var w := FrameShowNow(old(View()).(showTimer := Taken(old(showTimer.State()), k)),
                                    old(showTimer.scheduled[k].arg), autoplay);
        View() == w.(showTimer := Finished(w.showTimer))
    {
      var arg := showTimer.Take(k);
      ShowNow(arg, autoplay);
      showTimer.Finish();
    }

    /** `_exec` of the update timer on its pending call `k`. */
    method FireUpdate(k: nat, dom: Dom, cfg: Config)
      requires Valid() && k < |updateTimer.scheduled|
      modifies this, showTimer, hideTimer, updateTimer
      ensures var w := FrameUpdateNow(old(View()).(updateTimer := Taken(old(updateTimer.State()), k)),
                                      old(updateTimer.scheduled[k].arg), dom, cfg);
        View() == w.(updateTimer := Finished(w.updateTimer))
    {
      var arg := updateTimer.Take(k);
      UpdateNow(arg, dom, cfg);
      updateTimer.Finish();
    }

    /** `_on_push_pin_click`: returns the lock value written to `keepPreviewFrameOpen`. */
    method PinClick() returns (persisted: bool)
      modifies this
      ensures View() == PinToggled(old(View()))
      ensures persisted == locked
    {
      locked := !locked;
      persisted := locked;
    }

    /** `_on_mouseover` of the panel. */
    method MouseEnter()
      requires Valid()
      modifies hideTimer
      ensures View() == FrameMouseEnter(old(View()))
    {
      hideTimer.Stop();
    }
  }

  /** `PreviewIcon`: the affordance icon, the cached cursor and two timers. */
  class PreviewIcon {
    const showTimer: Timer
    const hideTimer: Timer
    var urlForPreview: Option<Url>
    var isMouseOverIcon: bool
    var mousePosition: Point
    var visibility: string
    var pointerEvents: string
    var position: Option<Point>
    var sizeCss: string

    predicate Valid() {
      showTimer.callback == ShowIcon && hideTimer.callback == HideIcon
    }

    ghost function Repr(): set<object> {
      {this, showTimer, hideTimer}
    }

    function View(): IconView
      reads this, showTimer, hideTimer
    {
      IconView(urlForPreview, isMouseOverIcon, mousePosition, visibility, pointerEvents, position, sizeCss,
               showTimer.State(), hideTimer.State())
    }

    constructor (cfg: Config)
      ensures Valid() && fresh(Repr() - {this})
      ensures View() == NewIcon(cfg)
    {
      showTimer := new Timer(ShowIcon, cfg.iconDisplayDelay);
      hideTimer := new Timer(HideIcon, cfg.iconDisplayTime);
      visibility := "hidden";
      pointerEvents := "";
      position := None;
      urlForPreview := None;
      mousePosition := Point(0, 0);
      isMouseOverIcon := false;
      sizeCss := IconSizeCss(cfg.iconSize);
    }

    /** `isVisible()`. */
    function Visible(): (b: bool)
      reads this, showTimer, hideTimer
      ensures b == IsVisible(View())
    {
      visibility == "visible"
    }

    /** `show(url)`. */
    method Show(url: Option<Url>)
      requires Valid()
      modifies this, showTimer, hideTimer
      ensures View() == IconShow(old(View()), url)
    {
      if isMouseOverIcon {
        return;
      }
      if urlForPreview != url {
        hideTimer.Start(None);
      }
      urlForPreview := url;
      showTimer.Stop();
      showTimer.Start(None);
    }

    /** `hide()`. */
    method Hide()
      requires Valid()
      modifies this, hideTimer
      ensures View() == IconHide(old(View()))
    {
      visibility := "hidden";
      hideTimer.Stop();
    }

    /** `_show()`. */
    method ShowNow(offset: Point, scroll: Point)
      requires Valid()
      modifies this, hideTimer
      ensures View() == IconShowNow(old(View()), offset, scroll)
    {
      position := Some(IconPosition(mousePosition, offset, scroll));
      visibility := "visible";
      pointerEvents := "auto";
      hideTimer.Start(None);
    }

    /** `_hide()`. */
    method HideNow()
      modifies this
      ensures View() == IconHideNow(old(View()))
    {
      visibility := "hidden";
      pointerEvents := "none";
    }

    /** The document `mousemove` listener. */
    method MouseMove(at: Point)
      modifies this
      ensures View() == IconMouseMove(old(View()), at)
    {
      mousePosition := at;
    }

    /** The icon's part of `updatePreviewSettings()`. */
    method ApplySettings(cfg: Config)
      requires Valid()
      modifies this, showTimer, hideTimer
      ensures View() == IconSettingsApplied(old(View()), cfg)
    {
      showTimer.UpdateTimeout(cfg.iconDisplayDelay);
      hideTimer.UpdateTimeout(cfg.iconDisplayTime);
      Rebuild(cfg.iconSize);
    }

    /** `build_icon()` replacing the element, then `updateIconSize()`. */
    method Rebuild(iconSize: string)
      modifies this
      ensures View() == IconRebuilt(old(View()), iconSize)
    {
      visibility := "hidden";
      pointerEvents := "";
      position := None;
      sizeCss := IconSizeCss(iconSize);
    }
  }

  /** The content script's globals and its event handlers. */
  class Page {
    var cfg: Config
    var frame: PreviewFrame?
    var icon: PreviewIcon?
    var listening: bool

    ghost function Repr(): set<object>
      reads this
    {
      {this} + (if frame != null then frame.Repr() else {}) + (if icon != null then icon.Repr() else {})
    }

    ghost predicate Valid()
      reads this
    {
      && (frame == null <==> icon == null)
      && (frame != null ==> frame.Valid() && icon.Valid())
    }

    function View(): PageView
      reads this, frame, icon
      reads if frame != null then {frame.showTimer, frame.hideTimer, frame.updateTimer} else {}
      reads if icon != null then {icon.showTimer, icon.hideTimer} else {}
    {
      PageView(cfg, if frame != null && icon != null then Some(Preview(frame.View(), icon.View())) else None, listening)
    }

    /** The script's start: settings loaded, then `initializePreviewInstances()`. */
    constructor (loaded: Config)
      ensures Valid() && View() == PageInitialize(PageView(loaded, None, false))
    {
      cfg := loaded;
      frame := null;
      icon := null;
      listening := false;
      new;
      InitializeInstances();
    }

    /**
     * `updatePreviewSettings()` with both instances present. The source retimes the icon's
     * timers before the panel's; no step reads what another writes, so the order is immaterial.
     */
    method ApplySettings()
      requires Valid() && frame != null
      modifies Repr()
      ensures Valid() && frame == old(frame) && icon == old(icon) && cfg == old(cfg) && listening == old(listening)
      ensures frame.View() == FrameSettingsApplied(old(frame.View()), cfg)
      ensures icon.View() == IconSettingsApplied(old(icon.View()), cfg)
    {
      frame.ApplySettings(cfg);
      icon.ApplySettings(cfg);
    }

    /** `new PreviewFrame()` and `new PreviewIcon()`, then `updatePreviewSettings()` on the pair. */
    static method NewInstances(cfg: Config) returns (frame: PreviewFrame, icon: PreviewIcon)
      ensures frame.Valid() && icon.Valid()
      ensures frame.View() == NewPreview(cfg).frame && icon.View() == NewPreview(cfg).icon
    {
      frame := new PreviewFrame(cfg);
      icon := new PreviewIcon(cfg);
      frame.ApplySettings(cfg);
      icon.ApplySettings(cfg);
    }

    /** `initializePreviewInstances()`. */
    method InitializeInstances()
      requires Valid()
      modifies this
      ensures Valid() && View() == PageInitialize(old(View()))
    {
      if cfg.previewEnabled {
        frame, icon := NewInstances(cfg);
        listening := true;
      }
    }

    /** `destroyPreviewInstances()`: the dropped instances are hidden first. */
    method DestroyInstances()
      requires Valid()
      modifies Repr()
      ensures Valid() && View() == PageDestroy(old(View()))
      ensures old(frame) != null ==> old(frame).View() == Destroyed(old(View()).preview.value).frame
      ensures old(icon) != null ==> old(icon).View() == Destroyed(old(View()).preview.value).icon
    {
      if frame != null {
        frame.HideNow();
        icon.Hide();
      }
      frame := null;
      icon := null;
      listening := false;
    }

    /** `on_link_mouseover_doc`. */
    method DocMouseOver(link: Option<Url>, hostname: Option<string>, resolved: Url)
      requires Valid()
      modifies Repr()
      ensures Valid() && View() == PageMouseOver(old(View()), link, hostname, resolved)
    {
      if !listening || !cfg.previewEnabled || frame == null {
        return;
      }
      OnLinkMouseOver(frame, icon, link, hostname, resolved);
    }

    /** `_onLinkMouseOver` of `frame`, which reaches `icon` through the global. */
    method OnLinkMouseOver(frame: PreviewFrame, icon: PreviewIcon, link: Option<Url>, hostname: Option<string>, resolved: Url)
      requires frame.Valid() && icon.Valid()
      modifies frame, frame.hideTimer, frame.updateTimer, icon, icon.showTimer, icon.hideTimer
      ensures Preview(frame.View(), icon.View()) == LinkMouseOver(old(Preview(frame.View(), icon.View())), link, hostname, resolved, cfg)
    {
      if !Truthy(link) {
        return;
      }
      var url := if IsShortenedUrl(hostname, cfg.shortenedUrlDomains) then resolved else link.value;
      if icon.Visible() && frame.state.lastHoveredUrl == Some(url) {
        return;
      }
      var ignore := frame.ShouldIgnoreUrl(url, cfg.urlFilterList);
      if ignore {
        return;
      }
      HoverAccepted(frame, icon, url);
    }

    /** The tail of `_onLinkMouseOver`: the URL is recorded, then the panel updated or the icon shown. */
    method HoverAccepted(frame: PreviewFrame, icon: PreviewIcon, url: Url)
      requires frame.Valid() && icon.Valid()
      modifies frame, frame.hideTimer, frame.updateTimer, icon, icon.showTimer, icon.hideTimer
      ensures Preview(frame.View(), icon.View()) == PreviewModel.HoverAccepted(old(Preview(frame.View(), icon.View())), url)
    {
      frame.SetPreviewState(NoUrls.(lastHoveredUrl := Some(url)));
      frame.SetPreviewState(NoUrls.(currentHoveredUrl := Some(url)));
      if frame.display {
        frame.Update(Some(url));
      } else {
        icon.Show(Some(url));
      }
    }

    /** `on_link_mouseout_doc`. */
    method DocMouseOut(isAnchor: bool)
      requires Valid()
      modifies Repr()
      ensures Valid() && View() == PageMouseOut(old(View()), isAnchor)
    {
      if !listening || frame == null || !isAnchor {
        return;
      }
      frame.SetPreviewState(NoUrls.(currentHoveredUrl := None));
      if frame.display {
        frame.Hide(cfg.previewEnabled);
      }
    }

    /** `runtime.onMessage`; `loaded` is what `loadSettings()` leaves. */
    method OnMessage(msg: Message, loaded: Config) returns (reply: Reply)
      requires Valid()
      modifies Repr()
      ensures Valid()
      ensures (View(), reply) == PageMessage(old(View()), msg, loaded)
    {
      match msg
      case UpdatePreviewEnabled(enabled) =>
        cfg := loaded.(previewEnabled := enabled);
        if enabled {
          InitializeInstances();
        } else {
          DestroyInstances();
        }
        reply := Success;
      case OtherAction(_) =>
        reply := Failure("Unsupported action");
    }

    /** `storage.onChanged` in the local area. */
    method OnSettingsChanged(loaded: Config)
      requires Valid()
      modifies Repr()
      ensures Valid() && View() == PageSettingsChanged(old(View()), loaded)
    {
      cfg := loaded;
      if frame != null {
        ApplySettings();
      }
    }
 
    /** `_on_mouseover` of the icon's polygon. */
    method IconMouseEnter()
      requires Valid()
      modifies Repr()
      ensures Valid() && View() == PageStep(old(View()), PreviewEvent.IconEnter)
    {
      if frame == null {
        return;
      }
      icon.isMouseOverIcon := true;
      icon.hideTimer.Stop();
      frame.Show(icon.urlForPreview);
    }

    /** `_on_mouseout` of the icon's polygon. */
    method IconMouseLeave()
      requires Valid()
      modifies Repr()
      ensures Valid() && View() == PageStep(old(View()), PreviewEvent.IconLeave)
    {
      if frame == null {
        return;
      }
      icon.isMouseOverIcon := false;
      icon.hideTimer.Start(None);
      frame.Hide(cfg.previewEnabled);
    }

    /** The panel's `mouseenter`. */
    method FrameMouseEnter()
      requires Valid()
      modifies Repr()
      ensures Valid() && View() == PageStep(old(View()), PreviewEvent.FrameEnter)
    {
      if frame != null {
        frame.MouseEnter();
      }
    }

    /** The panel's `mouseleave`. */
    method FrameMouseLeave()
      requires Valid()
      modifies Repr()
      ensures Valid() && View() == PageStep(old(View()), PreviewEvent.FrameLeave)
    {
      if frame != null {
        frame.Hide(cfg.previewEnabled);
      }
    }

    /** The pin button; the new lock is also written to `keepPreviewFrameOpen`. */
    method PinClick()
      requires Valid()
      modifies Repr()
      ensures Valid() && View() == PageStep(old(View()), PreviewEvent.PinClick)
    {
      if frame != null {
        var locked := frame.PinClick();
        cfg := cfg.(keepPreviewFrameOpen := locked);
      }
    }

    /** The hide button. */
    method HideClick()
      requires Valid()
      modifies Repr()
      ensures Valid() && View() == PageStep(old(View()), PreviewEvent.HideClick)
    {
      if frame != null {
        frame.HideNow();
      }
    }

    /** The document `mousemove` listener of the icon. */
    method MouseMove(at: Point)
      requires Valid()
      modifies Repr()
      ensures Valid() && View() == PageStep(old(View()), PreviewEvent.MouseMove(at))
    {
      if icon != null {
        icon.MouseMove(at);
      }
    }

    /** The browser runs pending call `k` of the timer bound to `cb`: `_exec`. */
    method TimerFires(cb: Callback, k: nat, dom: Dom)
      requires Valid()
      modifies Repr()
      ensures Valid() && View() == PageStep(old(View()), Fire(cb, k, dom))
    {
      if frame == null {
        return;
      }
      if k < |TimerOf(Preview(frame.View(), icon.View()), cb).scheduled| {
        Exec(frame, icon, cb, k, dom);
      }
    }

    /** `_exec` of the timer bound to `cb`, on a pending call. */
    method Exec(frame: PreviewFrame, icon: PreviewIcon, cb: Callback, k: nat, dom: Dom)
      requires frame.Valid() && icon.Valid()
      requires k < |TimerOf(Preview(frame.View(), icon.View()), cb).scheduled|
      modifies frame, frame.showTimer, frame.hideTimer, frame.updateTimer, icon, icon.showTimer, icon.hideTimer
      ensures Preview(frame.View(), icon.View()) == Expire(old(Preview(frame.View(), icon.View())), cb, k, dom, cfg)
    {
      match cb
      case ShowFrame => ExecShowFrame(frame, icon, k, dom);
      case HideFrame => ExecHideFrame(frame, icon, k, dom);
      case UpdateFrame => ExecUpdateFrame(frame, icon, k, dom);
      case ShowIcon => ExecShowIcon(frame, icon, k, dom);
      case HideIcon => ExecHideIcon(frame, icon, k, dom);
    }

    /** The panel delay ran out: `_show(url)`. */
    method ExecShowFrame(frame: PreviewFrame, icon: PreviewIcon, k: nat, dom: Dom)
      requires frame.Valid() && icon.Valid()
      requires k < |TimerOf(Preview(frame.View(), icon.View()), ShowFrame).scheduled|
      modifies frame, frame.showTimer
      ensures Preview(frame.View(), icon.View()) == Expire(old(Preview(frame.View(), icon.View())), ShowFrame, k, dom, cfg)
    {
      ExpireShowFrame(Preview(frame.View(), icon.View()), k, dom, cfg);
      frame.FireShow(k, cfg.youtubeAutoplay);
    }

    /** The panel display time ran out: `_hide()`. */
    method ExecHideFrame(frame: PreviewFrame, icon: PreviewIcon, k: nat, dom: Dom)
      requires frame.Valid() && icon.Valid()
      requires k < |TimerOf(Preview(frame.View(), icon.View()), HideFrame).scheduled|
      modifies frame, frame.hideTimer
      ensures Preview(frame.View(), icon.View()) == Expire(old(Preview(frame.View(), icon.View())), HideFrame, k, dom, cfg)
    {
      var _ := frame.hideTimer.Take(k);
      frame.HideNow();
      frame.hideTimer.Finish();
    }

    /** The update interval ran out: `_update(url)`. */
    method ExecUpdateFrame(frame: PreviewFrame, icon: PreviewIcon, k: nat, dom: Dom)
      requires frame.Valid() && icon.Valid()
      requires k < |TimerOf(Preview(frame.View(), icon.View()), UpdateFrame).scheduled|
      modifies frame, frame.showTimer, frame.hideTimer, frame.updateTimer
      ensures Preview(frame.View(), icon.View()) == Expire(old(Preview(frame.View(), icon.View())), UpdateFrame, k, dom, cfg)
    {
      ExpireUpdateFrame(Preview(frame.View(), icon.View()), k, dom, cfg);
      frame.FireUpdate(k, dom, cfg);
    }

    /** The icon delay ran out: `_show()` of the icon. */
    method ExecShowIcon(frame: PreviewFrame, icon: PreviewIcon, k: nat, dom: Dom)
      requires frame.Valid() && icon.Valid()
      requires k < |TimerOf(Preview(frame.View(), icon.View()), ShowIcon).scheduled|
      modifies icon, icon.showTimer, icon.hideTimer
      ensures Preview(frame.View(), icon.View()) == Expire(old(Preview(frame.View(), icon.View())), ShowIcon, k, dom, cfg)
    {
      var _ := icon.showTimer.Take(k);
      icon.ShowNow(cfg.iconDisplayOffset, dom.scroll);
      icon.showTimer.Finish();
    }

    /** The icon display time ran out: `_hide()` of the icon. */
    method ExecHideIcon(frame: PreviewFrame, icon: PreviewIcon, k: nat, dom: Dom)
      requires frame.Valid() && icon.Valid()
      requires k < |TimerOf(Preview(frame.View(), icon.View()), HideIcon).scheduled|
      modifies icon, icon.hideTimer
      ensures Preview(frame.View(), icon.View()) == Expire(old(Preview(frame.View(), icon.View())), HideIcon, k, dom, cfg)
    {
      var _ := icon.hideTimer.Take(k);
      icon.HideNow();
      icon.hideTimer.Finish();
    }
  }
}
