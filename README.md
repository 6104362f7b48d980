# Link preview extension: a Dafny model

This project models the hover-to-preview controller of a browser extension and proves
properties of it. The extension opens a floating panel showing a page when the user
hovers over a link.

- When the pointer rests on a link, a small icon appears next to the cursor.
- Entering the icon opens a panel with the linked page loaded in an iframe.
- The panel follows later hovers, hides itself after a delay, and can be pinned open.
- YouTube watch, `youtu.be` and live links are loaded as their embeddable player.

The core is `link_preview.js` and its three classes:

- `Timer` is a restartable single-shot `setTimeout`.
- `PreviewFrame` is the panel state machine.
- `PreviewIcon` is the icon state machine.

Around them sit the document mouse handlers, the runtime message dispatch, and the
content-type decision of `resolveShortenedUrl`. Two smaller cores are also modelled:

- `settings.js` coerces stored values to the type of each setting's default, and `updateSetting` checks the key;
- `ignore-frame-options.js` filters response headers and keeps a two-slot listener registry in step with two settings.

Layout, one module per file:

- **`Wrappers`, `Text`, `Seqs`** are shared helpers. `Text` holds JavaScript's `includes`, `startsWith`, `trim`, `split` and `toLowerCase` over `seq<char>`.
- **`Timers`** holds the timer as a value (`TimerState`), its transitions, their lemmas, and the class `Timer`. Besides the class's own fields, the state holds the `setTimeout` registrations still pending in the browser (`scheduled`). This makes a call the timer has lost track of visible.
- **`LinkUrls`** holds the pure helpers:
  - the filter and shortener tests;
  - the YouTube rewrite, with its regular expressions spelled out as captures;
  - the `resolveShortenedUrl` decision on a finished request;
  - the icon size and position maps.
- **`PreviewModel`** gives the panel, the icon and the page globals as values (`FrameView`, `IconView`, `Preview`, `PageView`), with one function per handler and the lemmas about them.
- **`PreviewClasses`** holds the classes `PreviewFrame`, `PreviewIcon` and `Page`. Their methods update fields and the timers in place. Each method is proved to leave `View()` equal to the matching `PreviewModel` function of the old view.
- **`Settings`** holds the value coercion, the `SETTINGS` table and the class `SettingsTable`.
- **`Configs`** reads a loaded table into the `Config` the handlers use, and states for which stored values that is possible.
- **`FrameOptions`** holds the header filter, the registry as a value, and the class `ListenerRegistry`.
- **`Findings`** holds two handlers as written, which read settings that do not exist; see "Findings".

Inputs stand in for what the code reads from the browser:

- the `:hover` test of the panel and the page scroll (`Dom`);
- the `href` of the hovered anchor;
- the hostname `new URL(href)` yields (`None` when it throws);
- the URL a shortener resolves to;
- the finished request (`Response`);
- what `storage.local.get` resolved with.

Where the behaviour described for the system and the code differ, the model follows the code:

- **Timer order.** `Timer._exec` clears `running` only after the callback has run (link_preview.js:519-523), not before.
- **Stale shortener results.** A late result of `resolveShortenedUrl` is not discarded: the hover handler has no staleness check after its `await` (link_preview.js:183-211). The hover is modelled as one step, with the resolved URL as an input.
- **Null resets.** The resets `_setPreviewState({ currentHoveredUrl: null })` at link_preview.js:39, 174 and 196 write nothing, because `_setPreviewState` skips null fields (76-81).

## Model

| member | source | states |
|---|---|---|
| Timers.Cancel | link_preview.js:510-512 | `clearTimeout(handle)` removes exactly the registration with that id; null removes none |
| Timers.StartLeavesOneCall | link_preview.js:508-517 | `start` on a settled timer leaves exactly one pending call, carrying the new argument and the current timeout |
| Timers.LastStartWins | link_preview.js:508-517 | two `start`s in a row cancel the first call; only the last argument is pending |
| Timers.StopIdleIsNoop | link_preview.js:525-532 | `stop` on a timer that is not running changes nothing |
| Timers.StopCancels | link_preview.js:525-532 | `stop` on a settled timer leaves no pending call |
| Timers.RetimeAffectsOnlyLaterStarts | link_preview.js:534-536 | `updateTimeout` leaves the pending calls and `running` alone; the next `start` uses the new delay |
| Timers.FireWithoutRearmEndsIdle | link_preview.js:519-523 | a firing whose callback leaves its own timer alone ends idle and settled |
| Timers.RearmInCallbackOrphansCall | link_preview.js:519-523 | a callback that re-arms its own timer ends with `running` false, one call pending, and `stop` unable to cancel it |
| Timers.StartAfterOrphanKeepsBoth | link_preview.js:508-517 | once a call is orphaned, the next `start` leaves two calls pending |
| Timers.Timer.constructor | link_preview.js:501-506 | a new timer holds its callback and timeout, and nothing is pending |
| Timers.Timer.Start | link_preview.js:508-517 | the new state is `Started` of the old: old call cleared when running, new call registered, handle and `running` set |
| Timers.Timer.Stop | link_preview.js:525-532 | the new state is `Stopped` of the old |
| Timers.Timer.UpdateTimeout | link_preview.js:534-536 | only the timeout changes |
| Timers.Timer.Take | link_preview.js:515 | the browser removes pending call `k` and hands its argument to `_exec` |
| Timers.Timer.Finish | link_preview.js:521-522 | after the callback, `running` is false and the handle null |
| LinkUrls.AnyContained | link_preview.js:94-103 | true exactly when some filter entry is a substring of the URL; an empty list never filters |
| LinkUrls.IsShortenedUrl | link_preview.js:106-116 | true exactly when the URL parses and its hostname contains one of the shortener domains |
| LinkUrls.CaptureNoneIffNoMatch | link_preview.js:121-143 | the regex capture finds nothing exactly when the path followed by a class character occurs nowhere |
| LinkUrls.CaptureIsLeftmostMatch | link_preview.js:121-143 | a capture is the greedy run after the leftmost match of the path |
| LinkUrls.HandleYouTubeUrl | link_preview.js:119-167 | an already-embedded URL gives null; any rewrite is a `https://www.youtube.com/embed/` URL |
| LinkUrls.WatchUrlRewrites | link_preview.js:128-139 | `youtube.com/watch?v=ID` after any scheme and host prefix without a `y`, followed by nothing or by `&…` with no embed path, becomes the embed URL of ID, with `?autoplay=1` exactly when autoplay is on |
| LinkUrls.ShortUrlRewrites | link_preview.js:128-139 | `youtu.be/ID` after any prefix without a `y`, followed by nothing or by `?…` with no embed or watch path, becomes the embed URL of ID, with `?autoplay=1` exactly when autoplay is on |
| LinkUrls.LiveUrlRewrites | link_preview.js:142-151 | `youtube.com/live/ID` after any prefix without a `y`, followed by nothing or by a character outside `[\w-]` other than `.` and no other YouTube path, becomes the embed URL of ID, with `?autoplay=1` exactly when autoplay is on |
| LinkUrls.EmbedUrlNotRewritten | link_preview.js:121-124 | an embed URL is not rewritten again, whatever its autoplay suffix |
| LinkUrls.OtherUrlNotRewritten | link_preview.js:166 | a URL not containing `youtu` is not rewritten |
| LinkUrls.FirstUrl | link_preview.js:754-756 | a match starts with `https://` or `http://` and has at least one URL character after the scheme |
| LinkUrls.FirstUrlNoneIffNoMatch | link_preview.js:754-760 | no URL is found exactly when the pattern matches nowhere in the body |
| LinkUrls.FirstUrlIsLeftmostMatch | link_preview.js:754-756 | the URL found is the leftmost match of the pattern, with its greedy run of URL characters |
| LinkUrls.FirstUrlOccurs | link_preview.js:754-756 | a match found in the body is a substring of the body |
| LinkUrls.ResolveShortenedUrl | link_preview.js:734-766 | the result differs from the short URL only through the URL-from-body branch |
| LinkUrls.ResolveFallsBack | link_preview.js:737-766 | a failed request, a missing or non-HTML content type, a status other than 200/304, or a body the URL pattern matches nowhere all give back the short URL |
| LinkUrls.ResolvedUrlFromBody | link_preview.js:751-758 | a resolved URL comes only from an HTML 200/304 response; it is the leftmost match of the URL pattern in the body and a substring of it |
| LinkUrls.IconSizeCss | link_preview.js:558-568 | medium gives 24px, large 32px, and every other size name 16px (inherited object property names aside) |
| LinkUrls.IconPixelSize | link_preview.js:631-639 | medium gives 24, large 32, and every other size name, the empty one included, 16 (inherited object property names aside) |
| LinkUrls.IconSizeMapsAgree | link_preview.js:558-568 | the style size is always the SVG's pixel size followed by `px` |
| PreviewModel.NewPreviewIsQuiet | link_preview.js:50-73 | fresh instances show nothing, have nothing pending, take the configured delays, and take the lock from `keepPreviewFrameOpen` |
| PreviewModel.FilteredLinkIsIgnored | link_preview.js:193-198 | a link whose URL contains a filter entry changes nothing |
| PreviewModel.SameUrlWhileIconVisibleIsIgnored | link_preview.js:187-191 | hovering the URL whose icon is on screen changes nothing |
| PreviewModel.HoverWithPanelHiddenSchedulesIcon | link_preview.js:200-210 | with the panel hidden, a hover records the URL as last and current, and leaves one icon-show call; a new URL also starts the icon hide timer; the panel's timers stay |
| PreviewModel.HoverWithPanelShownSchedulesUpdate | link_preview.js:205-207 | with the panel showing another page, a hover leaves one update call with the URL and cancels the hide |
| PreviewModel.HoverOnShownPageKeepsPanel | link_preview.js:346-351 | hovering the page already on show changes only the recorded URLs |
| PreviewModel.IconAppearsAtLatestCursor | link_preview.js:592-606 | when the icon delay runs out, the icon appears at the cursor position of that moment plus offset and scroll, and its hide timer starts |
| PreviewModel.IconHoverOpensPanel | link_preview.js:708-712 | entering the icon arms one panel-show call for the icon's URL and cancels both hides; its expiry displays the rewrite and records the URL |
| PreviewModel.IconLeaveArmsHides | link_preview.js:714-718 | leaving the icon arms the icon's and the unlocked panel's hide timers and cancels show and update |
| PreviewModel.DisabledHideIsImmediate | link_preview.js:305-309 | with the feature off, `hide()` closes the panel at once, whatever the lock, and cancels show and update |
| PreviewModel.UnlockedHideDefers | link_preview.js:310-314 | unlocked, `hide()` leaves one hide call after the hide delay and cancels show and update |
| PreviewModel.LockedPanelStaysDisplayed | link_preview.js:315-317 | a locked, displayed panel stays displayed through `hide`, `show`, `update`, `_update` and entering it |
| PreviewModel.PinDoesNotCancelPendingHide | link_preview.js:465-487 | the pin flips the lock but a hide already pending still closes the panel |
| PreviewModel.HideButtonIgnoresLock | link_preview.js:488-491 | the hide button closes the panel and blanks the iframe whatever the lock |
| PreviewModel.EnteringPanelCancelsHide | link_preview.js:492-494 | entering the panel leaves no hide pending |
| PreviewModel.HoveredPanelSkipsUpdate | link_preview.js:364-367 | an update firing while the panel is hovered changes nothing but the update timer |
| PreviewModel.StableUpdateLoadsUrl | link_preview.js:370-373 | an update whose URL is still the hovered one loads it, and an unlocked panel then gets a pending hide |
| PreviewModel.UnlockedRechaseIsCancelled | link_preview.js:374-383 | the retry `update()` of `_update` is cancelled by the `hide()` after it on an unlocked panel |
| PreviewModel.LockedRechaseOrphansUpdate | link_preview.js:374-383 | on a locked panel the retry call stays pending while the update timer believes it is stopped |
| PreviewModel.DocHandlersKeepSettled | link_preview.js:26-44 | the document's mouseover and mouseout handlers keep each of the five timers at one pending call at most, named by its handle |
| PreviewModel.HandlersKeepSettled | link_preview.js:465-497 | the pin, hide button, panel enter, icon enter and leave, `hide`, `_hide` and mousemove handlers keep each timer settled |
| PreviewModel.LifecycleKeepsSettled | link_preview.js:781-843 | applying settings and tearing the instances down keep each timer settled |
| PreviewModel.UpdateActsTimers | link_preview.js:364-383 | the show-or-retry step of `_update` keeps the lock and the show timer, leaves the hide timer settled, and changes the update timer only by the retry's restart |
| PreviewModel.ExpiryKeepsSettled | link_preview.js:519-523 | every timer expiry keeps the timers settled, except the locked retry of `_update` |
| PreviewModel.StepKeepsSettled | link_preview.js:442-497 | every event on the instances except the locked retry keeps all five timers settled |
| PreviewModel.TeardownLeavesShowPending | link_preview.js:830-834 | teardown hides with `_hide()`, which keeps a pending show; when it fires, the dropped panel is displayed again |
| PreviewModel.SettingsKeepPendingCalls | link_preview.js:781-809 | applying settings keeps every pending call and what is on show, hides the rebuilt icon and resizes it |
| PreviewModel.MouseOutKeepsHoveredUrl | link_preview.js:32-44 | leaving a link never changes the recorded URLs |
| PreviewModel.PageOperationsKeepConsistent | link_preview.js:814-843 | the document listeners are registered exactly while the instances exist, through every page operation |
| PreviewModel.TogglingThePreview | link_preview.js:862-880 | the enable message answers success with fresh quiet instances and listeners; the disable message answers success and drops them |
| PreviewModel.OtherActionsAreRefused | link_preview.js:882-885 | any other action changes nothing and answers "Unsupported action" |
| PreviewModel.DisabledPageIgnoresHover | link_preview.js:26-29 | with the feature off, hovering links never changes the page |
| PreviewModel.DisabledMouseOutHidesAtOnce | link_preview.js:38-43 | with the feature off but instances present, leaving a link hides a displayed panel at once, even a locked one |
| PreviewClasses.PreviewFrame.constructor | link_preview.js:50-73 | a new panel is `NewFrame` of the settings |
| PreviewClasses.PreviewFrame.SetPreviewState | link_preview.js:76-81 | only the non-null fields of the patch are written; nothing else changes |
| PreviewClasses.PreviewFrame.ShouldIgnoreUrl | link_preview.js:94-103 | the loop answers true exactly when some filter entry is a substring of the URL |
| PreviewClasses.PreviewFrame.Show | link_preview.js:249-253 | `show(url)` records `pendingUrl`, restarts the show timer with the URL and stops the hide timer |
| PreviewClasses.PreviewFrame.ShowNow | link_preview.js:256-274 | `_show(url)` sets `_display`, loads the rewrite, reveals the panel and records the URL on show |
| PreviewClasses.PreviewFrame.HideNow | link_preview.js:321-325 | `_hide()` clears `_display`, blanks the iframe and hides the panel |
| PreviewClasses.PreviewFrame.Hide | link_preview.js:302-318 | `hide()` takes the disabled, unlocked or locked branch as `FrameHide` says |
| PreviewClasses.PreviewFrame.Update | link_preview.js:346-357 | `update(url)` does nothing when the hovered URL is on show; otherwise it records `pendingUrl`, stops the hide and arms the update |
| PreviewClasses.PreviewFrame.UpdateNow | link_preview.js:360-384 | `_update(url)`: hovered, nothing; else show or retry, then `hide()` |
| PreviewClasses.PreviewFrame.FireShow | link_preview.js:519-523 | pending show call `k` is taken, `_show` runs with its URL and the show timer is finished |
| PreviewClasses.PreviewFrame.FireUpdate | link_preview.js:519-523 | pending update call `k` is taken, `_update` runs with its URL and the update timer is finished |
| PreviewClasses.PreviewFrame.ApplySettings | link_preview.js:781-796 | the three panel timers take the new delays, with pending calls kept, and a displayed panel gets its margin |
| PreviewClasses.PreviewFrame.PinClick | link_preview.js:465-487 | the lock flips, and the value handed back for persisting is the new lock |
| PreviewClasses.PreviewFrame.MouseEnter | link_preview.js:492-494 | entering the panel stops its hide timer |
| PreviewClasses.PreviewIcon.constructor | link_preview.js:540-556 | a new icon is hidden, with no URL and the configured delays |
| PreviewClasses.PreviewIcon.Visible | link_preview.js:720-722 | the icon counts as visible exactly when its visibility style is `visible` |
| PreviewClasses.PreviewIcon.Show | link_preview.js:570-585 | ignored while the pointer is over the icon; otherwise the hide restarts only for a new URL, and the URL and show timer always reset |
| PreviewClasses.PreviewIcon.Hide | link_preview.js:587-590 | `hide()` hides the icon and stops its hide timer |
| PreviewClasses.PreviewIcon.ShowNow | link_preview.js:592-612 | `_show()` places and reveals the icon and starts its hide timer |
| PreviewClasses.PreviewIcon.HideNow | link_preview.js:614-623 | `_hide()` hides the icon and disables its pointer events |
| PreviewClasses.PreviewIcon.MouseMove | link_preview.js:540-556 | the cached cursor position follows `mousemove` |
| PreviewClasses.PreviewIcon.ApplySettings | link_preview.js:783-808 | the icon's two timers take the new delays, and the icon is rebuilt hidden at the configured size |
| PreviewClasses.PreviewIcon.Rebuild | link_preview.js:800-806 | a rebuilt icon is hidden and sized from the setting; URL and timers stay |
| PreviewClasses.Page.constructor | link_preview.js:847-856 | start-up initialises the instances when the feature is on |
| PreviewClasses.Page.ApplySettings | link_preview.js:781-809 | the new delays reach all five timers, pending calls kept, a displayed panel gets its margin and the icon is rebuilt |
| PreviewClasses.Page.NewInstances | link_preview.js:817-822 | new panel and icon, with the settings applied, equal to the fresh instances `NewPreview` describes |
| PreviewClasses.Page.InitializeInstances | link_preview.js:814-827 | with the feature on, new instances and registered listeners |
| PreviewClasses.Page.DestroyInstances | link_preview.js:830-843 | the panel gets `_hide()`, the icon `hide()`, both globals are nulled and the listeners removed |
| PreviewClasses.Page.DocMouseOver | link_preview.js:26-29 | the page changes as `PageMouseOver` says |
| PreviewClasses.Page.OnLinkMouseOver | link_preview.js:170-211 | the instances change as `LinkMouseOver` says: no link, same URL with icon visible, or filtered, and nothing changes; otherwise the hover is accepted |
| PreviewClasses.Page.HoverAccepted | link_preview.js:200-210 | the URL is recorded, then `update` runs with the panel displayed, `preview_icon.show` without |
| PreviewClasses.Page.DocMouseOut | link_preview.js:32-44 | the page changes as `PageMouseOut` says |
| PreviewClasses.Page.OnMessage | link_preview.js:859-893 | the page and the reply are as `PageMessage` says |
| PreviewClasses.Page.OnSettingsChanged | link_preview.js:896-916 | the reloaded settings are stored and applied to live instances |
| PreviewClasses.Page.IconMouseEnter | link_preview.js:708-712 | the page changes as `PageStep` of entering the icon says |
| PreviewClasses.Page.IconMouseLeave | link_preview.js:714-718 | the page changes as `PageStep` of leaving the icon says |
| PreviewClasses.Page.FrameMouseEnter | link_preview.js:492-494 | the page changes as `PageStep` of entering the panel says |
| PreviewClasses.Page.FrameMouseLeave | link_preview.js:495-497 | the page changes as `PageStep` of leaving the panel says |
| PreviewClasses.Page.PinClick | link_preview.js:465-487 | the lock flips and `SETTINGS.keepPreviewFrameOpen` takes the new lock |
| PreviewClasses.Page.HideClick | link_preview.js:488-491 | the page changes as `PageStep` of the hide button says |
| PreviewClasses.Page.MouseMove | link_preview.js:540-556 | the icon's cached cursor position is updated |
| PreviewClasses.Page.TimerFires | link_preview.js:519-523 | a pending call of one of the five timers fires as `Expire` says: taken, callback run, timer cleared |
| PreviewClasses.Page.Exec | link_preview.js:519-523 | one timer's call is taken, its callback run and the timer finished |
| Settings.DefaultValue | settings.js:13-39 | a setting's default is never null or undefined |
| Settings.NumberOfIntText | settings.js:56 | `Number` of an integer's decimal text gives the integer back |
| Settings.CoercedNeverNullish | settings.js:67 | a loaded value is never null or undefined |
| Settings.BoolSettingTruth | settings.js:53-54 | a boolean setting loads as true exactly for stored `true` or `"true"` |
| Settings.BlankTextGivesDefaultList | settings.js:58-60 | a list setting stored as blank text loads as its default list |
| Settings.TextGivesCleanLines | settings.js:61-63 | other stored text loads as its lines, trimmed, with empty ones dropped, in order, each non-empty line as many times as it occurs; every element is non-empty and trimmed, and the list is not empty |
| Text.TrimOffset | settings.js:63 | the offset skips only whitespace and stops at the first other character |
| Text.Trim | settings.js:63 | the result is trimmed and is the slice of the input between whitespace-only ends |
| Settings.CleanLinesAreClean | settings.js:63 | every kept line is non-empty and has no surrounding whitespace |
| Settings.CleanLinesOrder | settings.js:63 | the kept lines are the trimmed pieces in their original order, each non-empty piece as many times as it occurs and no empty one |
| Settings.SomeLineIsNotBlank | settings.js:58-63 | text that is not blank yields at least one line |
| Settings.OtherValuesPassThrough | settings.js:57-67 | stored arrays of list settings and any value of a string setting pass through unchanged |
| Settings.NullishGivesDefault | settings.js:67 | a null or undefined value of a string or list setting becomes its default |
| Settings.DefaultSurvivesCoercion | settings.js:43-67 | a default goes through the coercion unchanged |
| Settings.MissingKeyLoadsDefault | settings.js:43-67 | a key storage does not hold loads as its default |
| Settings.ReloadIdempotent | settings.js:49-68 | loading twice from the same storage gives what loading once gives |
| Settings.ReloadedNeverNullish | settings.js:49-68 | after a load every entry is neither null nor undefined |
| Settings.SetValueTouchesOnlyKey | settings.js:78-84 | a known key gets the value and every other entry stays; an unknown key is rejected with nothing changed |
| Settings.UndeclaredSettings | settings.js:13-39 | `shortenedUrlDomains` and `youtubeAutoplay` are not declared settings |
| Settings.UnknownKeysRejected | settings.js:78-84 | writing `shortenedUrlDomains` or `youtubeAutoplay` is rejected with "Invalid setting key", while `previewEnabled` is accepted |
| Settings.SettingsTable.Load | settings.js:42-75 | the loop recomputes every entry from storage; a failed read leaves every value as it was |
| Settings.SettingsTable.UpdateSetting | settings.js:78-84 | the table and the outcome are as `SetValue` says |
| Configs.ReloadedNumber | settings.js:55-56 | a number setting loads as a number exactly when `Number()` of what storage holds for it is not `NaN` |
| Configs.ReloadedFlag | settings.js:53-54 | a boolean setting always loads as a boolean |
| Configs.ReloadedText | settings.js:66 | a text setting loads as text exactly when storage holds text, null, undefined or nothing for it |
| Configs.ReloadedList | settings.js:57-66 | a list setting loads as a list exactly when storage holds text, a list, null, undefined or nothing for it |
| Configs.ReloadedReadable | settings.js:49-68 | a loaded table holds values of the types the handlers read as `Config` exactly when storage holds readable values |
| Configs.DefaultsAreTyped | settings.js:13-39 | the declared defaults of the delays, offsets, flags, icon size and URL filter have the types `Config` gives them |
| Configs.FreshConfigIsDefault | settings.js:13-39 | with nothing stored, the handlers read the preview on and unlocked, delays 200/2000/500/2000/500, offset (-30, -30), size small and the filter `.zip`, `.pdf` |
| FrameOptions.FilterHeadersKeepsOthers | ignore-frame-options.js:36-38 | the filter keeps exactly the headers with another lower-cased name, each as often as it came, in order |
| FrameOptions.FilterHeadersIdempotent | ignore-frame-options.js:36-38 | filtering a second time removes nothing more |
| FrameOptions.Unregister | ignore-frame-options.js:54 | `removeListener` drops exactly that closure from the registered ones |
| FrameOptions.AddNeverDuplicates | ignore-frame-options.js:31-48 | adding keeps the registry consistent, is a no-op on an occupied slot or false condition, fills the slot otherwise, and never registers more than two closures |
| FrameOptions.RemoveEmptiesSlot | ignore-frame-options.js:51-57 | removing empties the slot, unregisters its closure and leaves the other slot alone |
| FrameOptions.SyncFollowsSettings | ignore-frame-options.js:60-82 | from any consistent registry, each slot ends occupied exactly when its setting is on, with one closure per occupied slot |
| FrameOptions.SyncIdempotent | ignore-frame-options.js:60-82 | syncing twice with the same settings equals syncing once |
| FrameOptions.ListenerRegistry.constructor | ignore-frame-options.js:25-28 | both slots start empty with nothing registered |
| FrameOptions.ListenerRegistry.AddListener | ignore-frame-options.js:31-48 | the registry changes as `Added` says |
| FrameOptions.ListenerRegistry.RemoveListener | ignore-frame-options.js:51-57 | the registry changes as `Removed` says |
| FrameOptions.ListenerRegistry.UpdateListenersBasedOnSettings | ignore-frame-options.js:60-82 | the registry stays consistent and each slot ends occupied exactly when its setting is on |
| Findings.HoverAsWrittenDoesNothing | link_preview.js:107 | as written, hovering any link leaves the controller unchanged |
| Findings.HoverCounterexample | link_preview.js:180-210 | on fresh instances, hovering `https://example.com/` schedules the icon in the corrected model and nothing as written |
| Findings.VideoShowAsWrittenKeepsOldPage | link_preview.js:135 | as written, `_show` of a `youtu.be` URL sets `_display` but the panel keeps its visibility, the old page and the old recorded URL |
| Findings.VideoShowLoadsPlayer | link_preview.js:256-274 | the corrected `_show` of a `youtu.be` URL loads the player, reveals the panel and records the URL |
| Findings.OtherShowsAgree | link_preview.js:256-274 | for every URL the rewrite leaves alone, the two versions of `_show` agree |

## Left out

- **DOM construction and side effects** are left out: `build_frame`, the icon SVG, the right margin and its `querySelector` reset, the back and forward buttons, and `window.open`. Visibility, `src`, the margin and the icon style are abstract fields.
- **Browser and network I/O** is left out: `browser.storage` reads and writes, `runtime` messaging, `webRequest` registration, and the `XMLHttpRequest` of `resolveShortenedUrl`. The storage read, the finished request and the parsed hostname are inputs, and `updateSetting`'s storage write is not modelled.
- **Concurrency** is left out. Awaited promises are taken as settled, so a shortener result that arrives after a later hover is not modelled. Timer calls fire one at a time, in any order the environment picks.
- **Replaced instances** are not kept. A second `initializePreviewInstances` replaces both instances; the model drops the old ones and their pending timer calls, whose callbacks would still run on the detached objects.
- **Old instances after teardown** are partly modelled. `PreviewModel.TeardownLeavesShowPending` shows that a dropped panel is redisplayed by its pending show. The page itself forgets dropped instances.
- **`debugLog`, console output, `pageshow` re-initialisation and the `previewEnabled === undefined` repair at start-up** are left out. A loaded value is never undefined, so the repair cannot trigger.
- **Listener results are not combined.** In `ignore-frame-options.js`, the model does not describe how the browser merges the header lists two listeners return for one response.
- **Other scripts** are left out. `background.js` (toolbar toggle, menus, tab broadcast) and `options.js` (form binding) only copy values. `ignore-frame-options.js`'s own message handler just re-runs the load and the sync, which are modelled.
- Settings.ToNumber: `Number()` is modelled for integers only. Decimal fractions, exponents, hexadecimal, `Infinity` and floating-point rounding are not; text of any other shape gives `NaN`.
- Text.Lower: `toLowerCase` is modelled for ASCII letters only. Other characters are left unchanged.
- **Form binding of the settings.** Each `SETTINGS` entry's `elementId` only links it to the options page form, so the model does not keep it.
- PreviewModel.Config: the handlers take the settings as `Config`, which `Configs.ConfigOf` reads from a loaded table. `Configs.ReloadedReadable` states exactly when a load fits. A delay or offset stored as text that is not an integer loads as `NaN`, and a non-text icon size or filter passes through unchanged. The handlers' behaviour on such values (`setTimeout` with `NaN`, a `NaNpx` position) is not modelled.
- LinkUrls.IconSizeCss / LinkUrls.IconPixelSize: the source looks sizes up with `sizeMap[value] || sizeMap.small`, so an inherited object property name such as `constructor` or `toString` gives that property, not 16px or 16. The model treats only the map's own keys as sizes.
- Settings.SetValue: `SETTINGS[key]` is truthy for inherited object properties such as `constructor`. The model treats only the declared keys as known.

## Findings

| source | as written | input that shows it | evidently intended | confidence | as-written member | corrected member |
|---|---|---|---|---|---|---|
| link_preview.js:107 | `_isShortenedUrl` reads `SETTINGS.shortenedUrlDomains.value` outside its `try`. settings.js:13-39 declares no such entry, so every hover over a link throws before anything is recorded. | hovering `https://example.com/` on fresh instances | the configured shortener domains are checked, and the hover then records the URL and schedules the icon | high (not executed) | Findings.HoverAsWrittenDoesNothing | PreviewModel.HoverWithPanelHiddenSchedulesIcon |
| link_preview.js:135 | `_handleYouTubeUrl` reads `SETTINGS.youtubeAutoplay.value`, which does not exist (also at 148). `_show` of a watch, `youtu.be` or live URL throws after setting `_display`, so the panel counts as displayed but keeps its visibility and the old page: a hidden panel stays hidden, and one already shown through `_update` keeps showing the previous page. | `_show("https://youtu.be/XYZ")` | the player URL is loaded, with `?autoplay=1` when autoplay is configured, and the panel is revealed | high (not executed) | Findings.VideoShowAsWrittenKeepsOldPage | Findings.VideoShowLoadsPlayer |
