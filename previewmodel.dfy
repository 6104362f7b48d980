/**
 * The hover-to-preview controller of link_preview.js as values: the state of the
 * panel (`PreviewFrame`), of the affordance icon (`PreviewIcon`) and of their five
 * timers, and one function per handler. The classes in previewclasses.dfy are proved
 * to change their fields exactly as these functions say.
 */
module PreviewModel {
  import opened Wrappers
  import opened Timers
  import opened Text
  import opened LinkUrls

  type Url = string

  /** `previewState` of `PreviewFrame`. */
  datatype PreviewState = PreviewState(
    currentHoveredUrl: Option<Url>,
    pendingUrl: Option<Url>,
    previewShowPageUrl: Option<Url>,
    lastHoveredUrl: Option<Url>)

  /** The argument object with every field null (or not passed). */
  const NoUrls := PreviewState(None, None, None, None)

  /** `_setPreviewState(patch)`: a field that is null in `patch` is not written. */
  function Merge(s: PreviewState, patch: PreviewState): PreviewState {
    PreviewState(
      if patch.currentHoveredUrl.Some? then patch.currentHoveredUrl else s.currentHoveredUrl,
      if patch.pendingUrl.Some? then patch.pendingUrl else s.pendingUrl,
      if patch.previewShowPageUrl.Some? then patch.previewShowPageUrl else s.previewShowPageUrl,
      if patch.lastHoveredUrl.Some? then patch.lastHoveredUrl else s.lastHoveredUrl)
  }

  /** JavaScript truthiness of a URL that may be null. */
  predicate Truthy(u: Option<Url>) {
    u.Some? && u.value != ""
  }

  /** The settings the content script reads from `SETTINGS`, already coerced. */
  datatype Config = Config(
    previewEnabled: bool,
    keepPreviewFrameOpen: bool,
    urlFilterList: seq<string>,
    shortenedUrlDomains: seq<string>,
    youtubeAutoplay: bool,
    iconDisplayOffset: Point,
    iconSize: string,
    iconDisplayDelay: int,
    iconDisplayTime: int,
    frameDisplayDelay: int,
    frameDisplayTime: int,
    frameUpdateTime: int)

  /** DOM facts read when a timer fires: the `:hover` test on the panel and the page scroll. */
  datatype Dom = Dom(frameHovered: bool, scroll: Point)

  // ================================================================ frame

  /**
   * `PreviewFrame`: `_display`, `locked`, the iframe's `src`, whether the panel's
   * visibility is `visible`, whether the right margin is applied, `previewState`
   * and its three timers.
   */
  datatype FrameView = FrameView(
    display: bool,
    locked: bool,
    src: string,
    visible: bool,
    marginApplied: bool,
    state: PreviewState,
    showTimer: TimerState,
    hideTimer: TimerState,
    updateTimer: TimerState)

  function NewFrame(cfg: Config): FrameView {
    FrameView(false, cfg.keepPreviewFrameOpen, "", false, false, NoUrls,
              Initial(cfg.frameDisplayDelay), Initial(cfg.frameDisplayTime), Initial(cfg.frameUpdateTime))
  }

  /** `show(url)`. */
  function FrameShow(v: FrameView, url: Option<Url>): FrameView {
    v.(state := Merge(v.state, NoUrls.(pendingUrl := url)),
       showTimer := Started(v.showTimer, url),
       hideTimer := Stopped(v.hideTimer))
  }

  /**
   * `_show(url)`: applies the margin and sets `_display`; with a URL it loads its embed
   * rewrite (or the URL itself), reveals the panel and records the URL. A null URL makes
   * `_handleYouTubeUrl` throw, so nothing after `_display` happens.
   */
  function FrameShowNow(v: FrameView, url: Option<Url>, autoplay: bool): FrameView {
    var shown := v.(marginApplied := true, display := true);
    match url
    case None => shown
    case Some(u) =>
      shown.(src := FrameSource(u, autoplay), visible := true,
             state := Merge(v.state, NoUrls.(previewShowPageUrl := url)))
  }

  /** `_hide()`. */
  function FrameHideNow(v: FrameView): FrameView {
    v.(display := false, src := "about:blank", visible := false, marginApplied := false)
  }

  /** `hide()`: immediate with the feature off, deferred when unlocked, nothing when locked. */
  function FrameHide(v: FrameView, previewEnabled: bool): FrameView {
    if !previewEnabled then
      FrameHideNow(v).(showTimer := Stopped(v.showTimer), updateTimer := Stopped(v.updateTimer))
    else if !v.locked then
      v.(hideTimer := Started(v.hideTimer, None),
         showTimer := Stopped(v.showTimer),
         updateTimer := Stopped(v.updateTimer))
    else v
  }

  /** `update(url)`: compares the hovered URL, not `url`, with the one on show. */
  function FrameUpdate(v: FrameView, url: Option<Url>): FrameView {
    if v.state.currentHoveredUrl == v.state.previewShowPageUrl then v
    else v.(state := Merge(v.state, NoUrls.(pendingUrl := url)),
            hideTimer := Stopped(v.hideTimer),
            updateTimer := Started(v.updateTimer, url))
  }

  /**
   * What `_update(url)` does before its closing `hide()`: show the URL when the hover
   * settled on it, otherwise chase the URL now hovered.
   */
  function UpdateActs(v: FrameView, url: Option<Url>, autoplay: bool): FrameView {
    if v.state.pendingUrl == v.state.currentHoveredUrl then FrameShowNow(v, url, autoplay)
    else if Truthy(v.state.currentHoveredUrl) then FrameUpdate(v, v.state.currentHoveredUrl)
    else v
  }

  /** `_update(url)`. */
  function FrameUpdateNow(v: FrameView, url: Option<Url>, dom: Dom, cfg: Config): FrameView {
    if dom.frameHovered then v
    else FrameHide(UpdateActs(v, url, cfg.youtubeAutoplay), cfg.previewEnabled)
  }

  /** `_on_push_pin_click`: flips the lock; the caller persists the new value. */
  function PinToggled(v: FrameView): FrameView {
    v.(locked := !v.locked)
  }

  /** `_on_mouseover` of the panel (mouseenter). */
  function FrameMouseEnter(v: FrameView): FrameView {
    v.(hideTimer := Stopped(v.hideTimer))
  }

  // ================================================================= icon

  /**
   * `PreviewIcon`: `urlForPreview`, `isMouseOverIcon`, `mousePosition`, the icon
   * element's visibility, pointer-events, position and size, and its two timers.
   */
  datatype IconView = IconView(
    urlForPreview: Option<Url>,
    isMouseOverIcon: bool,
    mousePosition: Point,
    visibility: string,
    pointerEvents: string,
    position: Option<Point>,
    sizeCss: string,
    showTimer: TimerState,
    hideTimer: TimerState)

  function NewIcon(cfg: Config): IconView {
    IconView(None, false, Point(0, 0), "hidden", "", None, IconSizeCss(cfg.iconSize),
             Initial(cfg.iconDisplayDelay), Initial(cfg.iconDisplayTime))
  }

  /** `isVisible()`. */
  predicate IsVisible(iv: IconView) {
    iv.visibility == "visible"
  }

  /** `show(url)`. */
  function IconShow(iv: IconView, url: Option<Url>): IconView {
    if iv.isMouseOverIcon then iv
    else iv.(hideTimer := if iv.urlForPreview != url then Started(iv.hideTimer, None) else iv.hideTimer,
             urlForPreview := url,
             showTimer := Started(Stopped(iv.showTimer), None))
  }

  /** `hide()`. */
  function IconHide(iv: IconView): IconView {
    iv.(visibility := "hidden", hideTimer := Stopped(iv.hideTimer))
  }

  /** `_show()`: placed from the cursor position cached at this moment. */
  function IconShowNow(iv: IconView, offset: Point, scroll: Point): IconView {
    iv.(position := Some(IconPosition(iv.mousePosition, offset, scroll)),
        visibility := "visible", pointerEvents := "auto",
        hideTimer := Started(iv.hideTimer, None))
  }

  /** `_hide()`. */
  function IconHideNow(iv: IconView): IconView {
    iv.(visibility := "hidden", pointerEvents := "none")
  }

  /** The document's `mousemove` listener. */
  function IconMouseMove(iv: IconView, p: Point): IconView {
    iv.(mousePosition := p)
  }

  /** `build_icon()` followed by `updateIconSize()`: a fresh hidden element; timers and URL stay. */
  function IconRebuilt(iv: IconView, iconSize: string): IconView {
    iv.(visibility := "hidden", pointerEvents := "", position := None, sizeCss := IconSizeCss(iconSize))
  }

  // ======================================================= both together

  datatype Preview = Preview(frame: FrameView, icon: IconView)

  /** `_on_mouseover` of the icon: flag set, hide timer stopped, `frame.show(urlForPreview)`. */
  function IconMouseEnter(p: Preview): Preview {
    Preview(FrameShow(p.frame, p.icon.urlForPreview),
            p.icon.(isMouseOverIcon := true, hideTimer := Stopped(p.icon.hideTimer)))
  }

  /** `_on_mouseout` of the icon: flag cleared, hide timer started, `frame.hide()`. */
  function IconMouseLeave(p: Preview, cfg: Config): Preview {
    Preview(FrameHide(p.frame, cfg.previewEnabled),
            p.icon.(isMouseOverIcon := false, hideTimer := Started(p.icon.hideTimer, None)))
  }

  /**
   * `_onLinkMouseOver`. `link` is the `href` of the enclosing anchor (None without one),
   * `hostname` what `new URL(href).hostname` gives (None when it throws) and `resolved`
   * what `resolveShortenedUrl` settles to.
   */
  function LinkMouseOver(p: Preview, link: Option<Url>, hostname: Option<string>, resolved: Url, cfg: Config): Preview {
    if !Truthy(link) then p
    else
      var url := if IsShortenedUrl(hostname, cfg.shortenedUrlDomains) then resolved else link.value;
      if IsVisible(p.icon) && p.frame.state.lastHoveredUrl == Some(url) then p
      else if AnyContained(url, cfg.urlFilterList) then p
      else HoverAccepted(p, url)
  }

  /** The tail of `_onLinkMouseOver` once the URL passed every check. */
  function HoverAccepted(p: Preview, url: Url): Preview {
    var f := p.frame.(state := Merge(Merge(p.frame.state, NoUrls.(lastHoveredUrl := Some(url))),
                                     NoUrls.(currentHoveredUrl := Some(url))));
    if f.display then Preview(FrameUpdate(f, Some(url)), p.icon)
    else Preview(f, IconShow(p.icon, Some(url)))
  }

  /** `on_link_mouseover_doc`. */
  function DocMouseOver(p: Preview, link: Option<Url>, hostname: Option<string>, resolved: Url, cfg: Config): Preview {
    if !cfg.previewEnabled then p else LinkMouseOver(p, link, hostname, resolved, cfg)
  }

  /**
   * `on_link_mouseout_doc` with instances present; `isAnchor` is `nodeName === 'A'`.
   * Its reset of the hovered URL passes null, which `_setPreviewState` skips.
   */
  function DocMouseOut(p: Preview, isAnchor: bool, cfg: Config): Preview {
    if !isAnchor then p
    else
      var q := p.(frame := p.frame.(state := Merge(p.frame.state, NoUrls.(currentHoveredUrl := None))));
      if q.frame.display then q.(frame := FrameHide(q.frame, cfg.previewEnabled)) else q
  }

  /** The timer a callback is bound to. */
  function TimerOf(p: Preview, cb: Callback): TimerState {
    match cb
    case ShowFrame => p.frame.showTimer
    case HideFrame => p.frame.hideTimer
    case UpdateFrame => p.frame.updateTimer
    case ShowIcon => p.icon.showTimer
    case HideIcon => p.icon.hideTimer
  }

  function WithTimer(p: Preview, cb: Callback, t: TimerState): Preview {
    match cb
    case ShowFrame => p.(frame := p.frame.(showTimer := t))
    case HideFrame => p.(frame := p.frame.(hideTimer := t))
    case UpdateFrame => p.(frame := p.frame.(updateTimer := t))
    case ShowIcon => p.(icon := p.icon.(showTimer := t))
    case HideIcon => p.(icon := p.icon.(hideTimer := t))
  }

  /** The callback itself, run on `arg`. */
  function RunCallback(p: Preview, cb: Callback, arg: Option<Url>, dom: Dom, cfg: Config): Preview {
    match cb
    case ShowFrame => p.(frame := FrameShowNow(p.frame, arg, cfg.youtubeAutoplay))
    case HideFrame => p.(frame := FrameHideNow(p.frame))
    case UpdateFrame => p.(frame := FrameUpdateNow(p.frame, arg, dom, cfg))
    case ShowIcon => p.(icon := IconShowNow(p.icon, cfg.iconDisplayOffset, dom.scroll))
    case HideIcon => p.(icon := IconHideNow(p.icon))
  }

  /**
   * Pending call `k` of the timer bound to `cb` expires: `_exec` runs the callback, then
   * clears `running` and the handle.
   */
  function Expire(p: Preview, cb: Callback, k: nat, dom: Dom, cfg: Config): Preview
    requires k < |TimerOf(p, cb).scheduled|
  {
    var t := TimerOf(p, cb);
    var arg := t.scheduled[k].arg;
    var ran := RunCallback(WithTimer(p, cb, Taken(t, k)), cb, arg, dom, cfg);
    WithTimer(ran, cb, Finished(TimerOf(ran, cb)))
  }

  /** The expiry of a show call, stated on the panel alone. */
  lemma ExpireShowFrame(p: Preview, k: nat, dom: Dom, cfg: Config)
    requires k < |p.frame.showTimer.scheduled|
    ensures var w := FrameShowNow(p.frame.(showTimer := Taken(p.frame.showTimer, k)),
                                  p.frame.showTimer.scheduled[k].arg, cfg.youtubeAutoplay);
      Expire(p, ShowFrame, k, dom, cfg) == Preview(w.(showTimer := Finished(w.showTimer)), p.icon)
  {
  }

  /** The expiry of an update call, stated on the panel alone. */
  lemma ExpireUpdateFrame(p: Preview, k: nat, dom: Dom, cfg: Config)
    requires k < |p.frame.updateTimer.scheduled|
    ensures var w := FrameUpdateNow(p.frame.(updateTimer := Taken(p.frame.updateTimer, k)),
                                    p.frame.updateTimer.scheduled[k].arg, dom, cfg);
      Expire(p, UpdateFrame, k, dom, cfg) == Preview(w.(updateTimer := Finished(w.updateTimer)), p.icon)
  {
  }

  /** The panel's part of `updatePreviewSettings()`: new delays and the margin re-applied when displayed. */
  function FrameSettingsApplied(v: FrameView, cfg: Config): FrameView {
    v.(showTimer := Retimed(v.showTimer, cfg.frameDisplayDelay),
       hideTimer := Retimed(v.hideTimer, cfg.frameDisplayTime),
       updateTimer := Retimed(v.updateTimer, cfg.frameUpdateTime),
       marginApplied := v.marginApplied || v.display)
  }

  /** The icon's part of `updatePreviewSettings()`: new delays, then the icon rebuilt at the new size. */
  function IconSettingsApplied(iv: IconView, cfg: Config): IconView {
    IconRebuilt(iv.(showTimer := Retimed(iv.showTimer, cfg.iconDisplayDelay),
                    hideTimer := Retimed(iv.hideTimer, cfg.iconDisplayTime)),
                cfg.iconSize)
  }

  /** `updatePreviewSettings()` on live instances. */
  function SettingsApplied(p: Preview, cfg: Config): Preview {
    Preview(FrameSettingsApplied(p.frame, cfg), IconSettingsApplied(p.icon, cfg))
  }

  /** `initializePreviewInstances()` creating the two instances. */
  function NewPreview(cfg: Config): Preview {
    SettingsApplied(Preview(NewFrame(cfg), NewIcon(cfg)), cfg)
  }

  /** What `destroyPreviewInstances()` does to the instances before dropping them. */
  function Destroyed(p: Preview): Preview {
    Preview(FrameHideNow(p.frame), IconHide(p.icon))
  }

  // ============================================================ properties

  predicate FrameSettled(v: FrameView) {
    Settled(v.showTimer) && Settled(v.hideTimer) && Settled(v.updateTimer)
  }

  predicate IconSettled(iv: IconView) {
    Settled(iv.showTimer) && Settled(iv.hideTimer)
  }

  predicate PreviewSettled(p: Preview) {
    FrameSettled(p.frame) && IconSettled(p.icon)
  }

  /** The URL `_onLinkMouseOver` works with once a shortened link is replaced. */
  function HoverUrl(link: Url, hostname: Option<string>, resolved: Url, cfg: Config): Url {
    if IsShortenedUrl(hostname, cfg.shortenedUrlDomains) then resolved else link
  }

  /** Fresh instances: nothing shown, nothing pending, the configured delays and lock. */
  lemma NewPreviewIsQuiet(cfg: Config)
    ensures var p := NewPreview(cfg);
      && PreviewSettled(p)
      && !p.frame.display && !p.frame.visible && !IsVisible(p.icon)
      && Idle(p.frame.showTimer) && Idle(p.frame.hideTimer) && Idle(p.frame.updateTimer)
      && Idle(p.icon.showTimer) && Idle(p.icon.hideTimer)
      && p.frame.locked == cfg.keepPreviewFrameOpen
      && p.frame.showTimer.timeout == cfg.frameDisplayDelay
      && p.frame.hideTimer.timeout == cfg.frameDisplayTime
      && p.frame.updateTimer.timeout == cfg.frameUpdateTime
      && p.icon.showTimer.timeout == cfg.iconDisplayDelay
      && p.icon.hideTimer.timeout == cfg.iconDisplayTime
  {
  }

  /** A link whose URL contains an entry of the filter list changes nothing at all. */
  lemma FilteredLinkIsIgnored(p: Preview, link: Url, hostname: Option<string>, resolved: Url, cfg: Config, k: nat)
    requires link != ""
    requires k < |cfg.urlFilterList| && Contains(HoverUrl(link, hostname, resolved, cfg), cfg.urlFilterList[k])
    ensures LinkMouseOver(p, Some(link), hostname, resolved, cfg) == p
  {
  }

  /** Re-entering the URL whose icon is on screen changes nothing: the icon is not re-shown. */
  lemma SameUrlWhileIconVisibleIsIgnored(p: Preview, link: Url, hostname: Option<string>, resolved: Url, cfg: Config)
    requires IsVisible(p.icon) && p.frame.state.lastHoveredUrl == Some(HoverUrl(link, hostname, resolved, cfg))
    ensures LinkMouseOver(p, Some(link), hostname, resolved, cfg) == p
  {
  }

  /** The preconditions under which a hover goes on to schedule something. */
  predicate HoverProceeds(p: Preview, link: Url, url: Url, cfg: Config) {
    && link != ""
    && !(IsVisible(p.icon) && p.frame.state.lastHoveredUrl == Some(url))
    && !AnyContained(url, cfg.urlFilterList)
  }

  /**
   * With the panel hidden, hovering a link records it as hovered and (unless the
   * pointer is over the icon) leaves exactly one pending icon-show call, after the
   * icon delay; the panel's timers are untouched.
   */
  lemma HoverWithPanelHiddenSchedulesIcon(p: Preview, link: Url, hostname: Option<string>, resolved: Url, cfg: Config)
    requires PreviewSettled(p) && !p.frame.display && !p.icon.isMouseOverIcon
    requires HoverProceeds(p, link, HoverUrl(link, hostname, resolved, cfg), cfg)
    ensures var url := HoverUrl(link, hostname, resolved, cfg);
      var q := LinkMouseOver(p, Some(link), hostname, resolved, cfg);
      && PreviewSettled(q)
      && q.frame.state.currentHoveredUrl == Some(url)
      && q.frame.state.lastHoveredUrl == Some(url)
      && q.frame.showTimer == p.frame.showTimer
      && q.frame.hideTimer == p.frame.hideTimer
      && q.frame.updateTimer == p.frame.updateTimer
      && q.icon.urlForPreview == Some(url)
      && |q.icon.showTimer.scheduled| == 1
      && q.icon.showTimer.scheduled[0].delay == p.icon.showTimer.timeout
      && (p.icon.urlForPreview != Some(url) ==> |q.icon.hideTimer.scheduled| == 1)
  {
    var url := HoverUrl(link, hostname, resolved, cfg);
    HoverIsAccepted(p, link, hostname, resolved, cfg);
    StopCancels(p.icon.showTimer);
    StartLeavesOneCall(Stopped(p.icon.showTimer), None);
    StartLeavesOneCall(p.icon.hideTimer, None);
  }

  /** A hover that passes the checks reaches the tail of `_onLinkMouseOver`. */
  lemma HoverIsAccepted(p: Preview, link: Url, hostname: Option<string>, resolved: Url, cfg: Config)
    requires HoverProceeds(p, link, HoverUrl(link, hostname, resolved, cfg), cfg)
    ensures LinkMouseOver(p, Some(link), hostname, resolved, cfg) == HoverAccepted(p, HoverUrl(link, hostname, resolved, cfg))
  {
  }

  /**
   * With the panel displayed and showing another page, hovering a link leaves exactly
   * one pending update call carrying the URL, cancels the hide timer and leaves the icon alone.
   */
  lemma HoverWithPanelShownSchedulesUpdate(p: Preview, link: Url, hostname: Option<string>, resolved: Url, cfg: Config)
    requires PreviewSettled(p) && p.frame.display
    requires HoverProceeds(p, link, HoverUrl(link, hostname, resolved, cfg), cfg)
    requires p.frame.state.previewShowPageUrl != Some(HoverUrl(link, hostname, resolved, cfg))
    ensures var url := HoverUrl(link, hostname, resolved, cfg);
      var q := LinkMouseOver(p, Some(link), hostname, resolved, cfg);
      && PreviewSettled(q)
      && q.icon == p.icon
      && q.frame.state.pendingUrl == Some(url)
      && q.frame.state.currentHoveredUrl == Some(url)
      && Idle(q.frame.hideTimer)
      && q.frame.updateTimer.scheduled == [Call(Stopped(p.frame.updateTimer).nextId, Some(url), p.frame.updateTimer.timeout)]
  {
    var url := HoverUrl(link, hostname, resolved, cfg);
    var f := p.frame.(state := Merge(Merge(p.frame.state, NoUrls.(lastHoveredUrl := Some(url))),
                                     NoUrls.(currentHoveredUrl := Some(url))));
    assert LinkMouseOver(p, Some(link), hostname, resolved, cfg) == Preview(FrameUpdate(f, Some(url)), p.icon);
    assert f.state.currentHoveredUrl != f.state.previewShowPageUrl;
    StopCancels(p.frame.hideTimer);
    StartLeavesOneCall(p.frame.updateTimer, Some(url));
  }

  /** Hovering the page already on show while the panel is displayed schedules nothing. */
  lemma HoverOnShownPageKeepsPanel(p: Preview, link: Url, hostname: Option<string>, resolved: Url, cfg: Config)
    requires p.frame.display
    requires HoverProceeds(p, link, HoverUrl(link, hostname, resolved, cfg), cfg)
    requires p.frame.state.previewShowPageUrl == Some(HoverUrl(link, hostname, resolved, cfg))
    ensures var q := LinkMouseOver(p, Some(link), hostname, resolved, cfg);
      q.icon == p.icon && q.frame == p.frame.(state := q.frame.state)
  {
  }

  /** Once the icon delay has run out, the icon appears at the cursor position of that moment. */
  lemma IconAppearsAtLatestCursor(p: Preview, dom: Dom, cfg: Config)
    requires IconSettled(p.icon) && p.icon.showTimer.running
    ensures var q := Expire(p, ShowIcon, 0, dom, cfg);
      && IsVisible(q.icon)
      && q.icon.pointerEvents == "auto"
      && q.icon.position == Some(Point(p.icon.mousePosition.x + cfg.iconDisplayOffset.x + dom.scroll.x,
                                       p.icon.mousePosition.y + cfg.iconDisplayOffset.y + dom.scroll.y))
      && Idle(q.icon.showTimer)
      && |q.icon.hideTimer.scheduled| == 1
      && q.frame == p.frame
  {
    StartLeavesOneCall(p.icon.hideTimer, None);
  }

  /**
   * Entering the icon and waiting out the panel delay displays the panel on the icon's URL:
   * its embed rewrite (or the URL itself) is loaded and recorded as the page on show.
   */
  lemma IconHoverOpensPanel(p: Preview, dom: Dom, cfg: Config, u: Url)
    requires PreviewSettled(p) && p.icon.urlForPreview == Some(u)
    ensures var entered := IconMouseEnter(p);
      && PreviewSettled(entered)
      && entered.frame.showTimer.scheduled == [Call(p.frame.showTimer.nextId, Some(u), p.frame.showTimer.timeout)]
      && Idle(entered.frame.hideTimer) && Idle(entered.icon.hideTimer)
      && var shown := Expire(entered, ShowFrame, 0, dom, cfg);
      && PreviewSettled(shown)
      && shown.frame.display && shown.frame.visible
      && shown.frame.src == FrameSource(u, cfg.youtubeAutoplay)
      && shown.frame.state.previewShowPageUrl == Some(u)
      && Idle(shown.frame.showTimer)
  {
    StartLeavesOneCall(p.frame.showTimer, Some(u));
    StopCancels(p.frame.hideTimer);
    StopCancels(p.icon.hideTimer);
  }

  /** Leaving the icon starts its hide timer and, when the panel is unlocked, the panel's. */
  lemma IconLeaveArmsHides(p: Preview, cfg: Config)
    requires PreviewSettled(p) && cfg.previewEnabled && !p.frame.locked
    ensures var q := IconMouseLeave(p, cfg);
      && PreviewSettled(q)
      && !q.icon.isMouseOverIcon
      && |q.icon.hideTimer.scheduled| == 1 && |q.frame.hideTimer.scheduled| == 1
      && Idle(q.frame.showTimer) && Idle(q.frame.updateTimer)
  {
    StartLeavesOneCall(p.icon.hideTimer, None);
    StartLeavesOneCall(p.frame.hideTimer, None);
    StopCancels(p.frame.showTimer);
    StopCancels(p.frame.updateTimer);
  }

  /** With the feature off, `hide()` closes the panel at once, lock or no lock, and cancels show and update. */
  lemma DisabledHideIsImmediate(v: FrameView)
    requires FrameSettled(v)
    ensures var w := FrameHide(v, false);
      && FrameSettled(w)
      && !w.display && !w.visible && w.src == "about:blank" && !w.marginApplied
      && Idle(w.showTimer) && Idle(w.updateTimer) && w.hideTimer == v.hideTimer
  {
    StopCancels(v.showTimer);
    StopCancels(v.updateTimer);
  }

  /** An unlocked panel is hidden by its hide timer: exactly one pending hide call, show and update cancelled. */
  lemma UnlockedHideDefers(v: FrameView)
    requires FrameSettled(v) && !v.locked
    ensures var w := FrameHide(v, true);
      && FrameSettled(w)
      && w.display == v.display
      && |w.hideTimer.scheduled| == 1 && w.hideTimer.scheduled[0].delay == v.hideTimer.timeout
      && Idle(w.showTimer) && Idle(w.updateTimer)
  {
    StartLeavesOneCall(v.hideTimer, None);
    StopCancels(v.showTimer);
    StopCancels(v.updateTimer);
  }

  /**
   * A locked, displayed panel stays displayed through every handler of the enabled
   * feature: `hide()`, `show()`, `update()` and the update timer's callback.
   */
  lemma LockedPanelStaysDisplayed(v: FrameView, url: Option<Url>, dom: Dom, cfg: Config)
    requires v.locked && v.display && cfg.previewEnabled
    ensures FrameHide(v, true) == v
    ensures FrameShow(v, url).display
    ensures FrameUpdate(v, url).display
    ensures FrameUpdateNow(v, url, dom, cfg).display
    ensures FrameMouseEnter(v).display
  {
  }

  /**
   * The pin does not stop a hide that is already pending: locking after the pointer
   * left still lets the hide timer close the panel.
   */
  lemma PinDoesNotCancelPendingHide(p: Preview, dom: Dom, cfg: Config)
    requires FrameSettled(p.frame) && p.frame.display && !p.frame.locked && cfg.previewEnabled
    ensures var left := p.(frame := FrameHide(p.frame, true));
      var pinned := left.(frame := PinToggled(left.frame));
      && pinned.frame.locked
      && |pinned.frame.hideTimer.scheduled| == 1
      && !Expire(pinned, HideFrame, 0, dom, cfg).frame.display
  {
    StartLeavesOneCall(p.frame.hideTimer, None);
  }

  /** The hide button closes the panel whatever the lock; the lock itself is kept. */
  lemma HideButtonIgnoresLock(v: FrameView)
    ensures !FrameHideNow(v).display && FrameHideNow(v).locked == v.locked
    ensures FrameHideNow(v).src == "about:blank"
  {
  }

  /** Entering the panel cancels a pending hide. */
  lemma EnteringPanelCancelsHide(v: FrameView)
    requires FrameSettled(v)
    ensures FrameSettled(FrameMouseEnter(v)) && Idle(FrameMouseEnter(v).hideTimer)
  {
    StopCancels(v.hideTimer);
  }

  /** While the pointer is on the panel, an expiring update changes nothing but the update timer. */
  lemma HoveredPanelSkipsUpdate(p: Preview, k: nat, dom: Dom, cfg: Config)
    requires dom.frameHovered && k < |p.frame.updateTimer.scheduled|
    ensures var q := Expire(p, UpdateFrame, k, dom, cfg);
      q.icon == p.icon && q.frame == p.frame.(updateTimer := q.frame.updateTimer)
  {
  }

  /**
   * An update whose URL is still the hovered one loads it; an unlocked panel then
   * gets a pending hide.
   */
  lemma StableUpdateLoadsUrl(p: Preview, u: Url, dom: Dom, cfg: Config)
    requires FrameSettled(p.frame) && !dom.frameHovered && cfg.previewEnabled
    requires p.frame.updateTimer.running && p.frame.updateTimer.scheduled[0].arg == Some(u)
    requires p.frame.state.pendingUrl == p.frame.state.currentHoveredUrl
    ensures var q := Expire(p, UpdateFrame, 0, dom, cfg);
      && FrameSettled(q.frame)
      && q.frame.display && q.frame.src == FrameSource(u, cfg.youtubeAutoplay)
      && q.frame.state.previewShowPageUrl == Some(u)
      && Idle(q.frame.updateTimer)
      && (!p.frame.locked ==> |q.frame.hideTimer.scheduled| == 1)
  {
    StartLeavesOneCall(p.frame.hideTimer, None);
    StopCancels(p.frame.showTimer);
  }

  /** The condition under which `_update` calls `update()` again on the hovered URL. */
  predicate Rechases(v: FrameView, dom: Dom) {
    && !dom.frameHovered
    && v.state.pendingUrl != v.state.currentHoveredUrl
    && Truthy(v.state.currentHoveredUrl)
    && v.state.currentHoveredUrl != v.state.previewShowPageUrl
  }

  /**
   * On an unlocked panel the retry of `_update` is cancelled straight away by the
   * `hide()` that follows it: no update is left pending.
   */
  lemma UnlockedRechaseIsCancelled(p: Preview, dom: Dom, cfg: Config)
    requires FrameSettled(p.frame) && p.frame.updateTimer.running
    requires Rechases(p.frame, dom) && cfg.previewEnabled && !p.frame.locked
    ensures var q := Expire(p, UpdateFrame, 0, dom, cfg);
      FrameSettled(q.frame) && Idle(q.frame.updateTimer) && |q.frame.hideTimer.scheduled| == 1
  {
    StartLeavesOneCall(p.frame.hideTimer, None);
    StopCancels(p.frame.showTimer);
  }

  /**
   * On a locked panel the retry survives, but `_exec` then clears `running`: the new
   * update call is pending while the timer believes it is stopped.
   */
  lemma LockedRechaseOrphansUpdate(p: Preview, dom: Dom, cfg: Config)
    requires FrameSettled(p.frame) && p.frame.updateTimer.running
    requires Rechases(p.frame, dom) && cfg.previewEnabled && p.frame.locked
    ensures var q := Expire(p, UpdateFrame, 0, dom, cfg);
      && !q.frame.updateTimer.running
      && q.frame.updateTimer.scheduled
         == [Call(p.frame.updateTimer.nextId, p.frame.state.currentHoveredUrl, p.frame.updateTimer.timeout)]
      && !Settled(q.frame.updateTimer)
  {
    var t := p.frame.updateTimer;
    assert Taken(t, 0).scheduled == [];
  }

  /** The document's link handlers keep each timer settled. */
  lemma DocHandlersKeepSettled(p: Preview, link: Option<Url>, hostname: Option<string>, resolved: Url,
                               isAnchor: bool, cfg: Config)
    requires PreviewSettled(p)
    ensures PreviewSettled(DocMouseOver(p, link, hostname, resolved, cfg))
    ensures PreviewSettled(DocMouseOut(p, isAnchor, cfg))
  {
    if link.Some? {
      HoverKeepsSettled(p, link.value, hostname, resolved, cfg);
    }
    var q := p.(frame := p.frame.(state := Merge(p.frame.state, NoUrls.(currentHoveredUrl := None))));
    FrameHideKeepsSettled(q.frame, cfg.previewEnabled);
  }

  /** The icon's and the panel's own handlers keep each timer settled. */
  lemma HandlersKeepSettled(p: Preview, at: Point, cfg: Config)
    requires PreviewSettled(p)
    ensures PreviewSettled(IconMouseEnter(p))
    ensures PreviewSettled(IconMouseLeave(p, cfg))
    ensures PreviewSettled(p.(frame := FrameMouseEnter(p.frame)))
    ensures PreviewSettled(p.(frame := FrameHide(p.frame, cfg.previewEnabled)))
    ensures PreviewSettled(p.(frame := PinToggled(p.frame)))
    ensures PreviewSettled(p.(frame := FrameHideNow(p.frame)))
    ensures PreviewSettled(p.(icon := IconMouseMove(p.icon, at)))
  {
    FrameHideKeepsSettled(p.frame, cfg.previewEnabled);
    FrameShowKeepsSettled(p.frame, p.icon.urlForPreview);
    StartLeavesOneCall(p.icon.hideTimer, None);
    StopCancels(p.icon.hideTimer);
    StopCancels(p.frame.hideTimer);
  }

  /** Applying settings and tearing the instances down keep each timer settled. */
  lemma LifecycleKeepsSettled(p: Preview, cfg: Config)
    requires PreviewSettled(p)
    ensures PreviewSettled(SettingsApplied(p, cfg))
    ensures PreviewSettled(Destroyed(p))
  {
    StopCancels(p.icon.hideTimer);
  }

  lemma FrameHideKeepsSettled(v: FrameView, enabled: bool)
    requires FrameSettled(v)
    ensures FrameSettled(FrameHide(v, enabled))
  {
    StartLeavesOneCall(v.hideTimer, None);
    StopCancels(v.showTimer);
    StopCancels(v.updateTimer);
  }

  lemma FrameShowKeepsSettled(v: FrameView, url: Option<Url>)
    requires FrameSettled(v)
    ensures FrameSettled(FrameShow(v, url))
  {
    StartLeavesOneCall(v.showTimer, url);
    StopCancels(v.hideTimer);
  }

  lemma FrameUpdateKeepsSettled(v: FrameView, url: Option<Url>)
    requires FrameSettled(v)
    ensures FrameSettled(FrameUpdate(v, url))
  {
    StartLeavesOneCall(v.updateTimer, url);
    StopCancels(v.hideTimer);
  }

  lemma HoverKeepsSettled(p: Preview, link: Url, hostname: Option<string>, resolved: Url, cfg: Config)
    requires PreviewSettled(p)
    ensures PreviewSettled(LinkMouseOver(p, Some(link), hostname, resolved, cfg))
  {
    var url := HoverUrl(link, hostname, resolved, cfg);
    FrameUpdateKeepsSettled(p.frame.(state := p.frame.state.(lastHoveredUrl := Some(url), currentHoveredUrl := Some(url))), Some(url));
    StopCancels(p.icon.showTimer);
    StartLeavesOneCall(Stopped(p.icon.showTimer), None);
    StartLeavesOneCall(p.icon.hideTimer, None);
  }

  /**
   * Every timer expiry keeps each timer settled, except the update expiry that retries
   * on a locked panel (see `LockedRechaseOrphansUpdate`).
   */
  lemma ExpiryKeepsSettled(p: Preview, cb: Callback, dom: Dom, cfg: Config)
    requires PreviewSettled(p) && TimerOf(p, cb).running
    requires !(cb == UpdateFrame && Rechases(p.frame, dom) && cfg.previewEnabled && p.frame.locked)
    ensures PreviewSettled(Expire(p, cb, 0, dom, cfg))
  {
    match cb
    case ShowFrame =>
    case HideFrame =>
    case HideIcon =>
    case ShowIcon =>
      StartLeavesOneCall(p.icon.hideTimer, None);
    case UpdateFrame =>
      UpdateExpiryKeepsSettled(p.frame, dom, cfg);
  }

  lemma UpdateExpiryKeepsSettled(v: FrameView, dom: Dom, cfg: Config)
    requires FrameSettled(v) && v.updateTimer.running
    requires !(Rechases(v, dom) && cfg.previewEnabled && v.locked)
    ensures var arg := v.updateTimer.scheduled[0].arg;
      var w := FrameUpdateNow(v.(updateTimer := Taken(v.updateTimer, 0)), arg, dom, cfg);
      FrameSettled(w.(updateTimer := Finished(w.updateTimer)))
  {
    var arg := v.updateTimer.scheduled[0].arg;
    var t := Taken(v.updateTimer, 0);
    assert t.scheduled == [];
    var v1 := v.(updateTimer := t);
    if !dom.frameHovered {
      UpdateActsTimers(v1, arg, cfg.youtubeAutoplay, dom);
      RetryThenHide(v1, UpdateActs(v1, arg, cfg.youtubeAutoplay), cfg.previewEnabled);
    }
  }

  /** The first half of `_update` keeps the lock and the show timer and restarts the update timer only on a rechase. */
  lemma UpdateActsTimers(v: FrameView, url: Option<Url>, autoplay: bool, dom: Dom)
    requires !dom.frameHovered && Settled(v.hideTimer)
    ensures var a := UpdateActs(v, url, autoplay);
      && a.locked == v.locked && a.showTimer == v.showTimer && Settled(a.hideTimer)
      && (|| a.updateTimer == v.updateTimer
          || (Rechases(v, dom) && a.updateTimer == Started(v.updateTimer, a.state.pendingUrl)))
  {
    if Rechases(v, dom) {
      StopCancels(v.hideTimer);
    }
  }

  /** The `hide()` that ends `_update`, on a panel whose update call is being run. */
  lemma RetryThenHide(v1: FrameView, acted: FrameView, enabled: bool)
    requires Settled(v1.showTimer) && Settled(v1.hideTimer)
    requires v1.updateTimer.running && v1.updateTimer.scheduled == []
    requires acted.showTimer == v1.showTimer
    requires Settled(acted.hideTimer)
    requires acted.updateTimer == v1.updateTimer || acted.updateTimer == Started(v1.updateTimer, acted.state.pendingUrl)
    requires acted.locked && enabled ==> acted.updateTimer == v1.updateTimer
    ensures var w := FrameHide(acted, enabled);
      FrameSettled(w.(updateTimer := Finished(w.updateTimer)))
  {
    var u := acted.updateTimer;
    assert u.running;
    assert u.scheduled == [] || u.scheduled == [Call(v1.updateTimer.nextId, acted.state.pendingUrl, v1.updateTimer.timeout)];
    assert u.handle == Some(v1.updateTimer.nextId) || u.scheduled == [];
    if !enabled || !acted.locked {
      assert Stopped(u).scheduled == [];
      StopCancels(acted.showTimer);
      if enabled {
        StartLeavesOneCall(acted.hideTimer, None);
      }
    }
  }

  /**
   * Tearing the instances down hides the panel with `_hide()`, which does not cancel a
   * pending show: when that call fires, the dropped panel is displayed again.
   */
  lemma TeardownLeavesShowPending(p: Preview, u: Url, dom: Dom, cfg: Config)
    requires FrameSettled(p.frame) && p.frame.showTimer.running && p.frame.showTimer.scheduled[0].arg == Some(u)
    ensures var gone := Destroyed(p);
      && !gone.frame.display
      && gone.frame.showTimer == p.frame.showTimer
      && var later := Expire(gone, ShowFrame, 0, dom, cfg);
      later.frame.display && later.frame.visible && later.frame.src == FrameSource(u, cfg.youtubeAutoplay)
  {
  }

  /** New settings change delays of later starts only; pending calls and what is on show stay. */
  lemma SettingsKeepPendingCalls(p: Preview, cfg: Config)
    ensures var q := SettingsApplied(p, cfg);
      && q.frame.showTimer.scheduled == p.frame.showTimer.scheduled
      && q.frame.hideTimer.scheduled == p.frame.hideTimer.scheduled
      && q.frame.updateTimer.scheduled == p.frame.updateTimer.scheduled
      && q.icon.showTimer.scheduled == p.icon.showTimer.scheduled
      && q.icon.hideTimer.scheduled == p.icon.hideTimer.scheduled
      && q.frame.display == p.frame.display && q.frame.src == p.frame.src
      && !IsVisible(q.icon) && q.icon.sizeCss == IconSizeCss(cfg.iconSize)
  {
  }

  /** Leaving a link never clears the hovered URL: the reset passes null. */
  lemma MouseOutKeepsHoveredUrl(p: Preview, isAnchor: bool, cfg: Config)
    ensures DocMouseOut(p, isAnchor, cfg).frame.state == p.frame.state
  {
  }

  // =============================================== events on the instances

  /** What can happen to the live instances besides the document mouse events. */
  datatype PreviewEvent =
    | IconEnter | IconLeave
    | FrameEnter | FrameLeave
    | PinClick | HideClick
    | MouseMove(at: Point)
    | Fire(cb: Callback, k: nat, dom: Dom)

  /** One event; an expiry of a call that is not pending changes nothing. */
  function PreviewStep(p: Preview, e: PreviewEvent, cfg: Config): Preview {
    match e
    case IconEnter => IconMouseEnter(p)
    case IconLeave => IconMouseLeave(p, cfg)
    case FrameEnter => p.(frame := FrameMouseEnter(p.frame))
    case FrameLeave => p.(frame := FrameHide(p.frame, cfg.previewEnabled))
    case PinClick => p.(frame := PinToggled(p.frame))
    case HideClick => p.(frame := FrameHideNow(p.frame))
    case MouseMove(at) => p.(icon := IconMouseMove(p.icon, at))
    case Fire(cb, k, dom) => if k < |TimerOf(p, cb).scheduled| then Expire(p, cb, k, dom, cfg) else p
  }

  /** The one event after which a timer can be left with a call it no longer tracks. */
  predicate LockedRechase(p: Preview, e: PreviewEvent, cfg: Config) {
    e.Fire? && e.cb == UpdateFrame && Rechases(p.frame, e.dom) && cfg.previewEnabled && p.frame.locked
  }

  /**
   * Every event except the locked retry keeps each of the five timers settled: at most
   * one pending call, which is the one its handle names.
   */
  lemma StepKeepsSettled(p: Preview, e: PreviewEvent, cfg: Config)
    requires PreviewSettled(p) && !LockedRechase(p, e, cfg)
    ensures PreviewSettled(PreviewStep(p, e, cfg))
  {
    match e
    case IconEnter => HandlersKeepSettled(p, Point(0, 0), cfg);
    case IconLeave => HandlersKeepSettled(p, Point(0, 0), cfg);
    case FrameEnter => StopCancels(p.frame.hideTimer);
    case FrameLeave => FrameHideKeepsSettled(p.frame, cfg.previewEnabled);
    case PinClick =>
    case HideClick =>
    case MouseMove(_) =>
    case Fire(cb, k, dom) =>
      if k < |TimerOf(p, cb).scheduled| {
        assert k == 0;
        ExpiryKeepsSettled(p, cb, dom, cfg);
      }
  }

  // ================================================================= page

  /**
   * The content script's globals: the settings it reads, the two instances (both
   * present or both null) and whether the document mouse listeners are registered.
   */
  datatype PageView = PageView(cfg: Config, preview: Option<Preview>, listening: bool)

  /** A runtime message; `action` names one the script does not handle. */
  datatype Message = UpdatePreviewEnabled(enabled: bool) | OtherAction(action: string)

  /** The object passed to `sendResponse`. */
  datatype Reply = Success | Failure(error: string)

  /** `initializePreviewInstances()`: new instances and listeners only with the feature on. */
  function PageInitialize(pv: PageView): PageView {
    if pv.cfg.previewEnabled then pv.(preview := Some(NewPreview(pv.cfg)), listening := true) else pv
  }

  /** `destroyPreviewInstances()`: both globals nulled and the listeners removed. */
  function PageDestroy(pv: PageView): PageView {
    pv.(preview := None, listening := false)
  }

  /** The document `mouseover` event. */
  function PageMouseOver(pv: PageView, link: Option<Url>, hostname: Option<string>, resolved: Url): PageView {
    if !pv.listening then pv
    else match pv.preview
      case None => pv
      case Some(p) => pv.(preview := Some(DocMouseOver(p, link, hostname, resolved, pv.cfg)))
  }

  /** An event on the instances; clicking the pin also writes the lock into the settings. */
  function PageStep(pv: PageView, e: PreviewEvent): PageView {
    match pv.preview
    case None => pv
    case Some(p) =>
      var cfg := if e.PinClick? then pv.cfg.(keepPreviewFrameOpen := !p.frame.locked) else pv.cfg;
      pv.(cfg := cfg, preview := Some(PreviewStep(p, e, pv.cfg)))
  }

  /** The document `mouseout` event. */
  function PageMouseOut(pv: PageView, isAnchor: bool): PageView {
    if !pv.listening then pv
    else match pv.preview
      case None => pv
      case Some(p) => pv.(preview := Some(DocMouseOut(p, isAnchor, pv.cfg)))
  }

  /**
   * `runtime.onMessage`. `loaded` is the configuration `loadSettings()` leaves; the
   * message's flag then overrides `previewEnabled`.
   */
  function PageMessage(pv: PageView, msg: Message, loaded: Config): (PageView, Reply) {
    match msg
    case UpdatePreviewEnabled(enabled) =>
      var updated := pv.(cfg := loaded.(previewEnabled := enabled));
      (if enabled then PageInitialize(updated) else PageDestroy(updated), Success)
    case OtherAction(_) => (pv, Failure("Unsupported action"))
  }

  /** `storage.onChanged` in the local area: settings reloaded, then applied to the instances. */
  function PageSettingsChanged(pv: PageView, loaded: Config): PageView {
    match pv.preview
    case None => pv.(cfg := loaded)
    case Some(p) => pv.(cfg := loaded, preview := Some(SettingsApplied(p, loaded)))
  }

  /** The listeners are registered exactly while the instances exist. */
  predicate PageConsistent(pv: PageView) {
    pv.listening <==> pv.preview.Some?
  }

  /** Every page-level operation keeps listeners and instances together. */
  lemma PageOperationsKeepConsistent(pv: PageView, msg: Message, loaded: Config,
                                     link: Option<Url>, hostname: Option<string>, resolved: Url, isAnchor: bool)
    requires PageConsistent(pv)
    ensures PageConsistent(PageInitialize(pv))
    ensures PageConsistent(PageDestroy(pv))
    ensures PageConsistent(PageMessage(pv, msg, loaded).0)
    ensures PageConsistent(PageSettingsChanged(pv, loaded))
    ensures PageConsistent(PageMouseOver(pv, link, hostname, resolved))
    ensures PageConsistent(PageMouseOut(pv, isAnchor))
    ensures forall e :: PageConsistent(PageStep(pv, e))
  {
  }

  /**
   * Switching the feature on answers success and leaves fresh, quiet instances with the
   * listeners registered; switching it off answers success and drops them.
   */
  lemma TogglingThePreview(pv: PageView, loaded: Config)
    ensures var (on, reply) := PageMessage(pv, UpdatePreviewEnabled(true), loaded);
      && reply == Success && on.cfg.previewEnabled && on.listening
      && on.preview == Some(NewPreview(on.cfg)) && PreviewSettled(on.preview.value)
      && !on.preview.value.frame.display && !IsVisible(on.preview.value.icon)
    ensures var (off, reply) := PageMessage(pv, UpdatePreviewEnabled(false), loaded);
      reply == Success && !off.cfg.previewEnabled && !off.listening && off.preview == None
  {
    NewPreviewIsQuiet(loaded.(previewEnabled := true));
  }

  /** A message with any other action changes nothing and answers the unsupported-action failure. */
  lemma OtherActionsAreRefused(pv: PageView, action: string, loaded: Config)
    ensures PageMessage(pv, OtherAction(action), loaded) == (pv, Failure("Unsupported action"))
  {
  }

  /** With the feature off, hovering links never changes the page. */
  lemma DisabledPageIgnoresHover(pv: PageView, link: Option<Url>, hostname: Option<string>, resolved: Url)
    requires !pv.cfg.previewEnabled
    ensures PageMouseOver(pv, link, hostname, resolved) == pv
  {
  }

  /**
   * With the feature off but the instances still present (the stored flag changed without
   * the message), leaving a link hides a displayed panel at once, even a locked one.
   */
  lemma DisabledMouseOutHidesAtOnce(pv: PageView, p: Preview)
    requires pv.listening && pv.preview == Some(p) && p.frame.display && !pv.cfg.previewEnabled
    ensures var q := PageMouseOut(pv, true).preview.value; !q.frame.display && q.frame.src == "about:blank"
  {
  }
}
