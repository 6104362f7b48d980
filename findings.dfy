/**
 * link_preview.js reads two entries that settings.js does not define,
 * `SETTINGS.shortenedUrlDomains` and `SETTINGS.youtubeAutoplay`. Reading `.value` of
 * the missing entry throws a `TypeError`, and the handler stops where it stands.
 * This module models both handlers as written and sets them beside the corrected
 * ones (`PreviewModel.LinkMouseOver`, `PreviewModel.FrameShowNow`), which take the
 * domain list and the autoplay flag from `Config`.
 */
module Findings {
  import opened Wrappers
  import opened Timers
  import opened Text
  import opened LinkUrls
  import opened PreviewModel
  import Settings

  /**
   * `_onLinkMouseOver` as written, given the entries `SETTINGS` has: without a link it
   * makes its no-op reset; with one, `_isShortenedUrl` reads the domain list before its
   * `try`, so a missing entry ends the handler before anything is written.
   */
  function LinkMouseOverAsWritten(p: Preview, link: Option<Url>, hostname: Option<string>, resolved: Url,
                                  cfg: Config, settings: map<string, Settings.Setting>): Preview {
    if !Truthy(link) then p
    else if "shortenedUrlDomains" !in settings then p
    else LinkMouseOver(p, link, hostname, resolved, cfg)
  }

  /** With the table settings.js declares, hovering a link never changes the controller. */
  lemma HoverAsWrittenDoesNothing(p: Preview, link: Option<Url>, hostname: Option<string>, resolved: Url, cfg: Config)
    ensures LinkMouseOverAsWritten(p, link, hostname, resolved, cfg, Settings.Defaults()) == p
  {
  }

  /** A configuration with no filter and no shortener, and fresh instances built from it. */
  const SampleConfig := Config(true, false, [], [], false, Point(-30, -30), "small", 200, 2000, 500, 2000, 500)

  /**
   * An input that tells the two apart: on fresh instances, hovering `https://example.com/`
   * schedules the icon in the corrected model and nothing in the one as written.
   */
  lemma HoverCounterexample()
    ensures var p := NewPreview(SampleConfig);
      && LinkMouseOver(p, Some("https://example.com/"), Some("example.com"), "", SampleConfig).icon.showTimer.running
      && !LinkMouseOverAsWritten(p, Some("https://example.com/"), Some("example.com"), "", SampleConfig,
                                 Settings.Defaults()).icon.showTimer.running
  {
    var p := NewPreview(SampleConfig);
    HoverAsWrittenDoesNothing(p, Some("https://example.com/"), Some("example.com"), "", SampleConfig);
    NewPreviewIsQuiet(SampleConfig);
    assert !AnyContained("https://example.com/", []);
  }

  /**
   * `_show(url)` as written, given whether `SETTINGS` has `youtubeAutoplay`: a URL that
   * `_handleYouTubeUrl` rewrites reaches the missing entry after the margin and
   * `_display` are set, so `src`, visibility and `previewShowPageUrl` stay as they were.
   */
  function FrameShowNowAsWritten(v: FrameView, url: Option<Url>, settings: map<string, Settings.Setting>): FrameView {
    var shown := v.(marginApplied := true, display := true);
    match url
    case None => shown
    case Some(u) =>
      if HandleYouTubeUrl(u, false).Some? && "youtubeAutoplay" !in settings then shown
      else
        var autoplay := "youtubeAutoplay" in settings && settings["youtubeAutoplay"].value == Settings.Bool(true);
        FrameShowNow(v, url, autoplay)
  }

  /**
   * With the table settings.js declares, a video URL marks the panel displayed but leaves
   * its visibility, the page it had loaded and the recorded URLs as they were: a hidden
   * panel stays hidden, and one already shown keeps showing the old page.
   */
  lemma VideoShowAsWrittenKeepsOldPage(v: FrameView, id: string)
    requires IsVideoId(id)
    ensures var w := FrameShowNowAsWritten(v, Some("https://" + ShortPath + id), Settings.Defaults());
      && w.display && w.visible == v.visible && w.src == v.src && w.state == v.state
  {
    PlainShortLinkRewrites(id, false);
  }

  /** The corrected `_show` loads the player for the same URL and reveals the panel. */
  lemma VideoShowLoadsPlayer(v: FrameView, id: string, autoplay: bool)
    requires IsVideoId(id)
    ensures var w := FrameShowNow(v, Some("https://" + ShortPath + id), autoplay);
      && w.display && w.visible && w.src == EmbedUrl(id, autoplay)
      && w.state.previewShowPageUrl == Some("https://" + ShortPath + id)
  {
    PlainShortLinkRewrites(id, autoplay);
  }

  /** The plain `https://youtu.be/ID` link is rewritten to the player of ID. */
  lemma PlainShortLinkRewrites(id: string, autoplay: bool)
    requires IsVideoId(id)
    ensures HandleYouTubeUrl("https://" + ShortPath + id, autoplay) == Some(EmbedUrl(id, autoplay))
  {
    assert "https://" + ShortPath + id + "" == "https://" + ShortPath + id;
    ShortUrlRewrites("https://", id, "", autoplay);
  }

  /** For every URL the rewrite leaves alone, the two versions of `_show` agree. */
  lemma OtherShowsAgree(v: FrameView, u: Url, autoplay: bool)
    requires HandleYouTubeUrl(u, false).None?
    ensures FrameShowNowAsWritten(v, Some(u), Settings.Defaults()) == FrameShowNow(v, Some(u), autoplay)
  {
    RewriteIgnoresAutoplay(u, false, autoplay);
  }

  /** Whether `_handleYouTubeUrl` rewrites a URL does not depend on the autoplay flag. */
  lemma RewriteIgnoresAutoplay(u: Url, a: bool, b: bool)
    ensures HandleYouTubeUrl(u, a).None? <==> HandleYouTubeUrl(u, b).None?
  {
  }
}
