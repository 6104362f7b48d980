/**
 * The pure helpers of link_preview.js: the URL filter, the link-shortener test, the
 * YouTube embed rewrite, the decision `resolveShortenedUrl` takes on a finished request,
 * and the icon's size and position maps.
 */
module LinkUrls {
  import opened Wrappers
  import opened Text

  // ---------------------------------------------------------------- filters

  /** `list.some(entry => s.includes(entry))`. */
  function AnyContained(s: string, list: seq<string>): (b: bool)
    ensures b <==> exists k :: 0 <= k < |list| && Contains(s, list[k])
  {
    if list == [] then false
    else Contains(s, list[0]) || AnyContained(s, list[1..])
  }

  /**
   * `_isShortenedUrl`: the hostname (absent when `new URL(url)` throws) contains one of
   * the shortener domains.
   */
  function IsShortenedUrl(hostname: Option<string>, domains: seq<string>): (b: bool)
    ensures b <==> hostname.Some? && exists k :: 0 <= k < |domains| && Contains(hostname.value, domains[k])
  {
    hostname.Some? && AnyContained(hostname.value, domains)
  }

  // ----------------------------------------------------------- regex pieces

  predicate IsWordChar(c: char) {
    ('a' <= c <= 'z') || ('A' <= c <= 'Z') || ('0' <= c <= '9') || c == '_'
  }

  /** The character classes of the captures: `[^?]`, `[^&]`, `[\w-]` and the URL class of `resolveShortenedUrl`. */
  datatype CharClass = NotQuestion | NotAmpersand | WordOrDash | UrlChar

  predicate InClass(c: char, cls: CharClass) {
    match cls
    case NotQuestion => c != '?'
    case NotAmpersand => c != '&'
    case WordOrDash => IsWordChar(c) || c == '-'
    case UrlChar => IsWordChar(c) || c in "/:%#$&?()~.=+-"
  }

  predicate AllInClass(s: string, cls: CharClass) {
    forall i :: 0 <= i < |s| ==> InClass(s[i], cls)
  }

  /** A greedy `[cls]*` at the start of `s`: its longest prefix inside the class. */
  function Run(s: string, cls: CharClass): (r: string)
    ensures |r| <= |s| && r == s[..|r|]
    ensures AllInClass(r, cls)
    ensures |r| == |s| || !InClass(s[|r|], cls)
  {
    if s != [] && InClass(s[0], cls) then [s[0]] + Run(s[1..], cls) else []
  }

  lemma {:induction false} RunOfClass(s: string, cls: CharClass)
    requires AllInClass(s, cls)
    ensures Run(s, cls) == s
  {
    if s != [] {
      RunOfClass(s[1..], cls);
    }
  }

  /** `lit` followed by at least one character of `cls` starts at index `i` of `s`. */
  predicate MatchAt(s: string, lit: string, cls: CharClass, i: int) {
    OccursAt(s, lit, i) && i + |lit| < |s| && InClass(s[i + |lit|], cls)
  }

  /**
   * The capture group of `/(?:https?:\/\/)?(?:www\.)?LIT(CLS+)/` on `s`. The optional
   * prefixes may match nothing, so a match exists exactly where `lit` followed by one
   * class character does, and the capture is the greedy run after the leftmost one
   * (`CaptureNoneIffNoMatch`, `CaptureIsLeftmostMatch`).
   */
  function Capture(s: string, lit: string, cls: CharClass): Option<string>
    decreases |s|
  {
    if MatchAt(s, lit, cls, 0) then Some(Run(s[|lit|..], cls))
    else if s == [] then None
    else Capture(s[1..], lit, cls)
  }

  /** `Capture` finds nothing exactly when `lit` followed by a class character occurs nowhere. */
  lemma {:induction false} CaptureNoneIffNoMatch(s: string, lit: string, cls: CharClass)
    ensures Capture(s, lit, cls).None? <==> forall i :: !MatchAt(s, lit, cls, i)
    decreases |s|
  {
    if !MatchAt(s, lit, cls, 0) && s != [] {
      CaptureNoneIffNoMatch(s[1..], lit, cls);
      MatchInTail(s, lit, cls);
      if Capture(s[1..], lit, cls).None? {
        forall i ensures !MatchAt(s, lit, cls, i) {
          if i > 0 {
            assert !MatchAt(s[1..], lit, cls, i - 1);
          }
        }
      } else {
        var i :| MatchAt(s[1..], lit, cls, i);
        assert MatchAt(s, lit, cls, i + 1);
      }
    }
  }

  /** `Capture` finds the leftmost match and returns the run after its literal. */
  lemma {:induction false} CaptureIsLeftmostMatch(s: string, lit: string, cls: CharClass)
    ensures Capture(s, lit, cls).Some? ==>
              exists i :: && MatchAt(s, lit, cls, i)
                          && (forall j :: 0 <= j < i ==> !MatchAt(s, lit, cls, j))
                          && Capture(s, lit, cls).value == Run(s[i + |lit|..], cls)
    decreases |s|
  {
    if MatchAt(s, lit, cls, 0) {
      assert s[0 + |lit|..] == s[|lit|..];
    } else if s != [] && Capture(s[1..], lit, cls).Some? {
      CaptureIsLeftmostMatch(s[1..], lit, cls);
      var i :| && MatchAt(s[1..], lit, cls, i)
               && (forall j :: 0 <= j < i ==> !MatchAt(s[1..], lit, cls, j))
               && Capture(s[1..], lit, cls).value == Run(s[1..][i + |lit|..], cls);
      CaptureShifts(s, lit, cls, i);
    }
  }

  /** The leftmost match of the tail, one index later, is the leftmost match of `s`. */
  lemma CaptureShifts(s: string, lit: string, cls: CharClass, i: nat)
    requires s != [] && !MatchAt(s, lit, cls, 0)
    requires MatchAt(s[1..], lit, cls, i) && forall j :: 0 <= j < i ==> !MatchAt(s[1..], lit, cls, j)
    ensures MatchAt(s, lit, cls, i + 1) && forall j :: 0 <= j < i + 1 ==> !MatchAt(s, lit, cls, j)
    ensures s[1..][i + |lit|..] == s[i + 1 + |lit|..]
  {
    MatchInTail(s, lit, cls);
    forall j | 0 < j < i + 1 ensures !MatchAt(s, lit, cls, j) {
      assert !MatchAt(s[1..], lit, cls, j - 1);
    }
  }

  lemma MatchInTail(s: string, lit: string, cls: CharClass)
    requires s != [] && !MatchAt(s, lit, cls, 0)
    ensures forall i :: MatchAt(s, lit, cls, i + 1) <==> MatchAt(s[1..], lit, cls, i)
    ensures forall i :: MatchAt(s[1..], lit, cls, i) ==> s[1..][i + |lit|..] == s[i + 1 + |lit|..]
  {
    forall i ensures MatchAt(s, lit, cls, i + 1) <==> MatchAt(s[1..], lit, cls, i) {
      if 0 <= i && i + 1 + |lit| <= |s| {
        assert s[1..][i..i + |lit|] == s[i + 1..i + 1 + |lit|];
      }
    }
  }

  /** Characters at the front of `s` that cannot start `lit` may be skipped. */
  lemma {:induction false} CaptureSkips(p: string, s: string, lit: string, cls: CharClass)
    requires lit != [] && lit[0] !in p
    ensures Capture(p + s, lit, cls) == Capture(s, lit, cls)
  {
    if p != [] {
      assert (p + s)[0] == p[0];
      assert p[0] in p;
      assert !MatchAt(p + s, lit, cls, 0) by {
        if |lit| <= |p + s| {
          assert (p + s)[0..0 + |lit|][0] != lit[0];
        }
      }
      assert (p + s)[1..] == p[1..] + s;
      assert forall c :: c in p[1..] ==> c in p;
      CaptureSkips(p[1..], s, lit, cls);
    } else {
      assert p + s == s;
    }
  }

  /** `lit` holds a character outside `[\w-]`, so it never occurs in a run of `[\w-]`. */
  lemma NoCaptureInWord(s: string, lit: string, k: nat, cls: CharClass)
    requires AllInClass(s, WordOrDash)
    requires k < |lit| && !InClass(lit[k], WordOrDash)
    ensures Capture(s, lit, cls) == None
  {
    forall i ensures !MatchAt(s, lit, cls, i) {
      if 0 <= i && i + |lit| <= |s| {
        assert s[i..i + |lit|][k] == s[i + k];
      }
    }
    CaptureNoneIffNoMatch(s, lit, cls);
  }

  // ------------------------------------------------------- YouTube rewrite

  const EmbedPath := "youtube.com/embed/"
  const WatchPath := "youtube.com/watch?v="
  const ShortPath := "youtu.be/"
  const LivePath := "youtube.com/live/"

  /** The embeddable player URL for a video id. */
  function EmbedUrl(id: string, autoplay: bool): string {
    "https://www." + EmbedPath + id + (if autoplay then "?autoplay=1" else "")
  }

  /**
   * `_handleYouTubeUrl`: `None` for a URL that already holds an embed path, the player URL
   * for a watch, youtu.be or live link, `None` (load verbatim) for anything else.
   * `autoplay` stands for the `youtubeAutoplay` setting.
   */
  function HandleYouTubeUrl(url: string, autoplay: bool): (r: Option<string>)
    ensures Capture(url, EmbedPath, NotQuestion).Some? ==> r.None?
    ensures r.Some? ==> StartsWith(r.value, "https://www." + EmbedPath)
  {
    if Capture(url, EmbedPath, NotQuestion).Some? then None
    else
      var videoId := match Capture(url, WatchPath, NotAmpersand)
                     case Some(id) => Some(id)
                     case None => Capture(url, ShortPath, NotQuestion);
      if videoId.Some? then Some(EmbedUrl(videoId.value, autoplay))
      else
        match Capture(url, LivePath, WordOrDash)
        case Some(id) => Some(EmbedUrl(id, autoplay))
        case None => None
  }

  /** A video id as the shapes below carry it: letters, digits, `_` and `-`. */
  predicate IsVideoId(id: string) {
    id != [] && AllInClass(id, WordOrDash)
  }

  /** Index `j` holds the first character of `lit` outside `[\w-]`. */
  predicate WordPartEndsAt(lit: string, j: nat) {
    j < |lit| && !InClass(lit[j], WordOrDash) && forall k :: 0 <= k < j ==> InClass(lit[k], WordOrDash)
  }

  lemma PathsWordParts()
    ensures WordPartEndsAt(EmbedPath, 7) && WordPartEndsAt(WatchPath, 7) && WordPartEndsAt(ShortPath, 5)
  {
  }

  /**
   * What may follow an id without extending a match of `lit` into it: nothing, or a
   * character outside `[\w-]` that is not the end of the word part of `lit`.
   */
  predicate EndsWord(rest: string, lit: string, j: nat)
    requires j < |lit|
  {
    rest == [] || (!InClass(rest[0], WordOrDash) && rest[0] != lit[j])
  }

  /**
   * `id + rest`, with `id` a run of `[\w-]` and `rest` free of `lit`, holds no match of
   * `lit`: one starting in `id` would need `id` or the first character of `rest` to
   * continue the word part of `lit`.
   */
  lemma NoCaptureAcross(id: string, rest: string, lit: string, cls: CharClass, j: nat)
    requires AllInClass(id, WordOrDash) && WordPartEndsAt(lit, j) && EndsWord(rest, lit, j)
    requires forall i :: !MatchAt(rest, lit, cls, i)
    ensures Capture(id + rest, lit, cls) == None
  {
    var s := id + rest;
    forall i ensures !MatchAt(s, lit, cls, i) {
      if 0 <= i && i + |lit| <= |s| {
        if i < |id| {
          if i + j < |id| {
            assert s[i..i + |lit|][j] == id[i + j];
          } else {
            assert s[i..i + |lit|][|id| - i] == rest[0];
          }
        } else {
          assert s[i..i + |lit|] == rest[i - |id|..i - |id| + |lit|];
          if i + |lit| < |s| {
            assert s[i + |lit|] == rest[i - |id| + |lit|];
          }
          assert !MatchAt(rest, lit, cls, i - |id|);
        }
      }
    }
    CaptureNoneIffNoMatch(s, lit, cls);
  }

  /**
   * In `pre + path + id + rest`, where only the first character of `path` can start `lit`
   * and `path` differs from `lit` at index `k`, there is no match of `lit`.
   */
  lemma AbsentFrom(pre: string, path: string, id: string, rest: string, lit: string, cls: CharClass, k: nat, j: nat)
    requires lit != [] && lit[0] !in pre && path != [] && lit[0] !in path[1..]
    requires k < |lit| && k < |path| && path[k] != lit[k]
    requires AllInClass(id, WordOrDash) && WordPartEndsAt(lit, j) && EndsWord(rest, lit, j)
    requires forall i :: !MatchAt(rest, lit, cls, i)
    ensures Capture(pre + path + id + rest, lit, cls) == None
  {
    var tail := path + (id + rest);
    calc {
      Capture(pre + path + id + rest, lit, cls);
      { assert pre + path + id + rest == pre + tail;
        CaptureSkips(pre, tail, lit, cls); }
      Capture(tail, lit, cls);
      { NotAtStart(tail, lit, cls, k); }
      Capture(tail[1..], lit, cls);
      { assert tail[1..] == path[1..] + (id + rest); }
      Capture(path[1..] + (id + rest), lit, cls);
      { CaptureSkips(path[1..], id + rest, lit, cls); }
      Capture(id + rest, lit, cls);
      { NoCaptureAcross(id, rest, lit, cls, j); }
      None;
    }
  }

  /** A greedy run over `id + rest` stops where `rest` leaves the class. */
  lemma {:induction false} RunStops(id: string, rest: string, cls: CharClass)
    requires AllInClass(id, cls) && (rest == [] || !InClass(rest[0], cls))
    ensures Run(id + rest, cls) == id
  {
    if id == [] {
      assert id + rest == rest;
    } else {
      assert (id + rest)[0] == id[0] && (id + rest)[1..] == id[1..] + rest;
      RunStops(id[1..], rest, cls);
    }
  }

  /** In `pre + lit + id + rest`, with `pre` unable to start `lit` and `rest` outside the class, the capture is `id`. */
  lemma FoundAfter(pre: string, lit: string, id: string, rest: string, cls: CharClass)
    requires lit != [] && lit[0] !in pre
    requires id != [] && AllInClass(id, cls) && (rest == [] || !InClass(rest[0], cls))
    ensures Capture(pre + lit + id + rest, lit, cls) == Some(id)
  {
    var s := lit + (id + rest);
    assert pre + lit + id + rest == pre + s;
    CaptureSkips(pre, s, lit, cls);
    assert s[0..0 + |lit|] == lit;
    assert s[|lit|] == id[0];
    assert s[|lit|..] == id + rest;
    RunStops(id, rest, cls);
  }

  /** Without an embed path, a watch capture decides the rewrite. */
  lemma RewriteFromWatch(url: string, id: string, autoplay: bool)
    requires Capture(url, EmbedPath, NotQuestion) == None && Capture(url, WatchPath, NotAmpersand) == Some(id)
    ensures HandleYouTubeUrl(url, autoplay) == Some(EmbedUrl(id, autoplay))
  {
  }

  /** Without an embed or watch path, a youtu.be capture decides the rewrite. */
  lemma RewriteFromShort(url: string, id: string, autoplay: bool)
    requires Capture(url, EmbedPath, NotQuestion) == None && Capture(url, WatchPath, NotAmpersand) == None
    requires Capture(url, ShortPath, NotQuestion) == Some(id)
    ensures HandleYouTubeUrl(url, autoplay) == Some(EmbedUrl(id, autoplay))
  {
  }

  /** With none of the other three paths, a live capture decides the rewrite. */
  lemma RewriteFromLive(url: string, id: string, autoplay: bool)
    requires Capture(url, EmbedPath, NotQuestion) == None && Capture(url, WatchPath, NotAmpersand) == None
    requires Capture(url, ShortPath, NotQuestion) == None && Capture(url, LivePath, WordOrDash) == Some(id)
    ensures HandleYouTubeUrl(url, autoplay) == Some(EmbedUrl(id, autoplay))
  {
  }

  /**
   * A watch link loads the player of its id. `pre` holds no `y`, so it may be any scheme and
   * host prefix (`https://www.`, `http://m.`, nothing); what follows the id starts with `&`,
   * as `&t=` or `&list=` do, and holds no embed path.
   */
  lemma WatchUrlRewrites(pre: string, id: string, rest: string, autoplay: bool)
    requires 'y' !in pre && IsVideoId(id)
    requires rest == [] || rest[0] == '&'
    requires forall i :: !MatchAt(rest, EmbedPath, NotQuestion, i)
    ensures HandleYouTubeUrl(pre + WatchPath + id + rest, autoplay) == Some(EmbedUrl(id, autoplay))
  {
    assert 'y' !in WatchPath[1..];
    PathsWordParts();
    AbsentFrom(pre, WatchPath, id, rest, EmbedPath, NotQuestion, 12, 7);
    assert AllInClass(id, NotAmpersand);
    FoundAfter(pre, WatchPath, id, rest, NotAmpersand);
    RewriteFromWatch(pre + WatchPath + id + rest, id, autoplay);
  }

  /**
   * A `youtu.be` link loads the player of its id; what follows the id starts with `?`, as
   * `?si=` or `?t=` do, and holds no embed or watch path.
   */
  lemma ShortUrlRewrites(pre: string, id: string, rest: string, autoplay: bool)
    requires 'y' !in pre && IsVideoId(id)
    requires rest == [] || rest[0] == '?'
    requires forall i :: !MatchAt(rest, EmbedPath, NotQuestion, i)
    requires forall i :: !MatchAt(rest, WatchPath, NotAmpersand, i)
    ensures HandleYouTubeUrl(pre + ShortPath + id + rest, autoplay) == Some(EmbedUrl(id, autoplay))
  {
    assert 'y' !in ShortPath[1..];
    PathsWordParts();
    AbsentFrom(pre, ShortPath, id, rest, EmbedPath, NotQuestion, 5, 7);
    AbsentFrom(pre, ShortPath, id, rest, WatchPath, NotAmpersand, 5, 7);
    assert AllInClass(id, NotQuestion);
    FoundAfter(pre, ShortPath, id, rest, NotQuestion);
    RewriteFromShort(pre + ShortPath + id + rest, id, autoplay);
  }

  /**
   * A live link loads the player of its id; what follows the id starts outside `[\w-]` and
   * is not a `.`, and holds no embed, watch or `youtu.be` path.
   */
  lemma LiveUrlRewrites(pre: string, id: string, rest: string, autoplay: bool)
    requires 'y' !in pre && IsVideoId(id)
    requires rest == [] || (!InClass(rest[0], WordOrDash) && rest[0] != '.')
    requires forall i :: !MatchAt(rest, EmbedPath, NotQuestion, i)
    requires forall i :: !MatchAt(rest, WatchPath, NotAmpersand, i)
    requires forall i :: !MatchAt(rest, ShortPath, NotQuestion, i)
    ensures HandleYouTubeUrl(pre + LivePath + id + rest, autoplay) == Some(EmbedUrl(id, autoplay))
  {
    assert 'y' !in LivePath[1..];
    PathsWordParts();
    AbsentFrom(pre, LivePath, id, rest, EmbedPath, NotQuestion, 12, 7);
    AbsentFrom(pre, LivePath, id, rest, WatchPath, NotAmpersand, 12, 7);
    AbsentFrom(pre, LivePath, id, rest, ShortPath, NotQuestion, 5, 5);
    FoundAfter(pre, LivePath, id, rest, WordOrDash);
    RewriteFromLive(pre + LivePath + id + rest, id, autoplay);
  }

  /** `lit` differs from `s` at index `k`, so no match starts at index 0 of `s`. */
  lemma NotAtStart(s: string, lit: string, cls: CharClass, k: nat)
    requires s != [] && k < |lit| && k < |s| && s[k] != lit[k]
    ensures Capture(s, lit, cls) == Capture(s[1..], lit, cls)
  {
    assert !MatchAt(s, lit, cls, 0) by {
      if |lit| <= |s| {
        assert s[0..0 + |lit|][k] != lit[k];
      }
    }
  }

  /** An embed URL is not rewritten again: the frame loads it verbatim. */
  lemma EmbedUrlNotRewritten(id: string, autoplay: bool, autoplayNow: bool)
    requires IsVideoId(id)
    ensures HandleYouTubeUrl(EmbedUrl(id, autoplay), autoplayNow) == None
  {
    var suffix := if autoplay then "?autoplay=1" else "";
    var tail := EmbedPath + (id + suffix);
    assert EmbedUrl(id, autoplay) == "https://www." + tail;
    assert 'y' !in "https://www.";
    CaptureSkips("https://www.", tail, EmbedPath, NotQuestion);
    assert tail[0..0 + |EmbedPath|] == EmbedPath && tail[|EmbedPath|] == id[0];
    assert MatchAt(tail, EmbedPath, NotQuestion, 0);
  }

  /** A URL without `youtu` in it is never rewritten. */
  lemma OtherUrlNotRewritten(url: string, autoplay: bool)
    requires !Contains(url, "youtu")
    ensures HandleYouTubeUrl(url, autoplay) == None
  {
    NotCapturedWithout(url, EmbedPath, NotQuestion);
    NotCapturedWithout(url, WatchPath, NotAmpersand);
    NotCapturedWithout(url, ShortPath, NotQuestion);
    NotCapturedWithout(url, LivePath, WordOrDash);
  }

  lemma NotCapturedWithout(url: string, lit: string, cls: CharClass)
    requires StartsWith(lit, "youtu") && !Contains(url, "youtu")
    ensures Capture(url, lit, cls) == None
  {
    forall i ensures !MatchAt(url, lit, cls, i) {
      if 0 <= i && i + |lit| <= |url| {
        assert url[i..i + 5] == url[i..i + |lit|][..5];
        assert !OccursAt(url, "youtu", i);
      }
    }
    CaptureNoneIffNoMatch(url, lit, cls);
  }

  /** What the frame loads for `url`: the embed rewrite when there is one, else `url` itself. */
  function FrameSource(url: string, autoplay: bool): string {
    match HandleYouTubeUrl(url, autoplay)
    case Some(embed) => embed
    case None => url
  }

  // ------------------------------------------ resolveShortenedUrl decision

  /** How the request of `resolveShortenedUrl` ended: it threw, or it reached `readyState` 4. */
  datatype Response = RequestThrew | Done(contentType: Option<string>, status: int, body: string)

  /** The branch `resolveShortenedUrl` took, one per `resolve` call. */
  datatype Outcome = NoContentType | ImageContent | JsonContent | OtherContent
                   | UrlFromBody | NoUrlInBody | BadStatus | RequestError

  /** `/https?:\/\/[\w/:%#\$&\?\(\)~\.=\+\-]+/` matches at index `i` of `s`. */
  predicate UrlMatchAt(s: string, i: int) {
    MatchAt(s, "https://", UrlChar, i) || MatchAt(s, "http://", UrlChar, i)
  }

  /** The text of the match at `i`: `https?` takes the `s` when it can, then the run is greedy. */
  function UrlMatch(s: string, i: nat): string
    requires UrlMatchAt(s, i)
  {
    if MatchAt(s, "https://", UrlChar, i) then "https://" + Run(s[i + 8..], UrlChar)
    else "http://" + Run(s[i + 7..], UrlChar)
  }

  /**
   * The first match of `/https?:\/\/[\w/:%#\$&\?\(\)~\.=\+\-]+/g` in `body`.
   */
  function FirstUrl(body: string): (r: Option<string>)
    ensures r.Some? ==> (StartsWith(r.value, "https://") && |r.value| > 8)
                        || (StartsWith(r.value, "http://") && |r.value| > 7)
    decreases |body|
  {
    if MatchAt(body, "https://", UrlChar, 0) then
      Some("https://" + Run(body[8..], UrlChar))
    else if MatchAt(body, "http://", UrlChar, 0) then
      Some("http://" + Run(body[7..], UrlChar))
    else if body == [] then None
    else FirstUrl(body[1..])
  }

  /** Without a match at index 0, the matches of `body` are those of its tail, one index later. */
  lemma UrlMatchInTail(body: string)
    requires body != [] && !UrlMatchAt(body, 0)
    ensures forall i :: UrlMatchAt(body, i + 1) <==> UrlMatchAt(body[1..], i)
    ensures forall i: nat :: UrlMatchAt(body[1..], i) ==> UrlMatch(body, i + 1) == UrlMatch(body[1..], i)
  {
    MatchInTail(body, "https://", UrlChar);
    MatchInTail(body, "http://", UrlChar);
  }

  lemma FirstUrlAtStart(body: string)
    requires UrlMatchAt(body, 0)
    ensures FirstUrl(body) == Some(UrlMatch(body, 0))
  {
    assert body[0 + 8..] == body[8..] && body[0 + 7..] == body[7..];
  }

  lemma FirstUrlSkips(body: string)
    requires body != [] && !UrlMatchAt(body, 0)
    ensures FirstUrl(body) == FirstUrl(body[1..])
  {
  }

  /** The leftmost match of the tail, one index later, is the leftmost match of `body`. */
  lemma LeftmostShifts(body: string, i: nat)
    requires body != [] && !UrlMatchAt(body, 0)
    requires UrlMatchAt(body[1..], i) && forall j :: 0 <= j < i ==> !UrlMatchAt(body[1..], j)
    ensures UrlMatchAt(body, i + 1) && forall j :: 0 <= j < i + 1 ==> !UrlMatchAt(body, j)
    ensures UrlMatch(body, i + 1) == UrlMatch(body[1..], i)
  {
    UrlMatchInTail(body);
    forall j | 0 < j < i + 1 ensures !UrlMatchAt(body, j) {
      assert !UrlMatchAt(body[1..], j - 1);
    }
  }

  /** `FirstUrl` finds nothing exactly when the body holds no match. */
  lemma {:induction false} FirstUrlNoneIffNoMatch(body: string)
    ensures FirstUrl(body).None? <==> forall i :: !UrlMatchAt(body, i)
    decreases |body|
  {
    if !UrlMatchAt(body, 0) && body != [] {
      FirstUrlNoneIffNoMatch(body[1..]);
      UrlMatchInTail(body);
      if FirstUrl(body[1..]).None? {
        forall i ensures !UrlMatchAt(body, i) {
          if i > 0 {
            assert !UrlMatchAt(body[1..], i - 1);
          }
        }
      } else {
        var i :| UrlMatchAt(body[1..], i);
        assert UrlMatchAt(body, i + 1);
      }
    }
  }

  /** What `FirstUrl` finds is the leftmost match of the pattern, with its greedy run. */
  lemma {:induction false} FirstUrlIsLeftmostMatch(body: string)
    ensures FirstUrl(body).Some? ==>
              exists i: nat :: && UrlMatchAt(body, i)
                               && (forall j :: 0 <= j < i ==> !UrlMatchAt(body, j))
                               && FirstUrl(body).value == UrlMatch(body, i)
    decreases |body|
  {
    if UrlMatchAt(body, 0) {
      FirstUrlAtStart(body);
      assert FirstUrl(body).value == UrlMatch(body, 0);
    } else if body != [] && FirstUrl(body[1..]).Some? {
      FirstUrlIsLeftmostMatch(body[1..]);
      FirstUrlSkips(body);
      var i: nat :| && UrlMatchAt(body[1..], i)
                    && (forall j :: 0 <= j < i ==> !UrlMatchAt(body[1..], j))
                    && FirstUrl(body[1..]).value == UrlMatch(body[1..], i);
      LeftmostShifts(body, i);
    }
  }

  /** The URL found is a substring of the body. */
  lemma {:induction false} FirstUrlOccurs(body: string)
    ensures FirstUrl(body).Some? ==> Contains(body, FirstUrl(body).value)
    decreases |body|
  {
    var r := FirstUrl(body);
    if MatchAt(body, "https://", UrlChar, 0) {
      assert body[..8] == body[0..0 + 8];
      assert body[..|r.value|] == r.value;
      assert OccursAt(body, r.value, 0);
    } else if MatchAt(body, "http://", UrlChar, 0) {
      assert body[..7] == body[0..0 + 7];
      assert body[..|r.value|] == r.value;
      assert OccursAt(body, r.value, 0);
    } else if body != [] && r.Some? {
      FirstUrlOccurs(body[1..]);
      var i :| OccursAt(body[1..], r.value, i);
      assert body[1..][i..i + |r.value|] == body[i + 1..i + 1 + |r.value|];
      assert OccursAt(body, r.value, i + 1);
    }
  }

  /**
   * `resolveShortenedUrl` once the request is over: the first URL in an HTML body with
   * status 200 or 304, otherwise the short URL itself.
   */
  function ResolveShortenedUrl(shortUrl: string, response: Response): (r: (string, Outcome))
    ensures r.0 != shortUrl ==> r.1 == UrlFromBody
  {
    match response
    case RequestThrew => (shortUrl, RequestError)
    case Done(contentType, status, body) =>
      if contentType.None? then (shortUrl, NoContentType)
      else if !Contains(contentType.value, "text/html") then
        if Contains(contentType.value, "image/") then (shortUrl, ImageContent)
        else if Contains(contentType.value, "json") then (shortUrl, JsonContent)
        else (shortUrl, OtherContent)
      else if status == 304 || status == 200 then
        match FirstUrl(body)
        case Some(u) => (u, UrlFromBody)
        case None => (shortUrl, NoUrlInBody)
      else (shortUrl, BadStatus)
  }

  /** Resolution never blocks the hover: every failure falls back to the short URL. */
  lemma ResolveFallsBack(shortUrl: string, response: Response)
    requires || response.RequestThrew?
             || response.contentType.None?
             || !Contains(response.contentType.value, "text/html")
             || (response.status != 200 && response.status != 304)
             || forall i :: !UrlMatchAt(response.body, i)
    ensures ResolveShortenedUrl(shortUrl, response).0 == shortUrl
  {
    if response.Done? {
      FirstUrlNoneIffNoMatch(response.body);
    }
  }

  /**
   * A resolved URL always comes from an HTML 200/304 body: it is the leftmost match of the
   * URL pattern there, and a substring of the body.
   */
  lemma ResolvedUrlFromBody(shortUrl: string, response: Response)
    requires ResolveShortenedUrl(shortUrl, response).1 == UrlFromBody
    ensures response.Done? && response.contentType.Some?
    ensures Contains(response.contentType.value, "text/html")
    ensures response.status == 200 || response.status == 304
    ensures Contains(response.body, ResolveShortenedUrl(shortUrl, response).0)
    ensures exists i: nat :: && UrlMatchAt(response.body, i)
                             && (forall j :: 0 <= j < i ==> !UrlMatchAt(response.body, j))
                             && ResolveShortenedUrl(shortUrl, response).0 == UrlMatch(response.body, i)
  {
    FirstUrlOccurs(response.body);
    FirstUrlIsLeftmostMatch(response.body);
  }

  // ------------------------------------------------------------- icon maps

  /** The size `updateIconSize` gives the icon's style: `sizeMap[iconSize] || sizeMap.small`. */
  function IconSizeCss(iconSize: string): (css: string)
    ensures css in {"16px", "24px", "32px"}
    ensures css == "16px" <==> iconSize != "medium" && iconSize != "large"
    ensures iconSize == "medium" ==> css == "24px"
    ensures iconSize == "large" ==> css == "32px"
  {
    if iconSize == "medium" then "24px"
    else if iconSize == "large" then "32px"
    else "16px"
  }

  /** The pixel size `build_icon` gives the SVG: `sizeMap[iconSize || "small"] || sizeMap.small`. */
  function IconPixelSize(iconSize: string): (px: nat)
    ensures px in {16, 24, 32}
    ensures px == 16 <==> iconSize != "medium" && iconSize != "large"
    ensures iconSize == "medium" ==> px == 24
    ensures iconSize == "large" ==> px == 32
  {
    var current := if iconSize == "" then "small" else iconSize;
    if current == "small" then 16
    else if current == "medium" then 24
    else if current == "large" then 32
    else 16
  }

  /** The two size tables agree: the style size is the SVG's pixel size followed by `px`. */
  lemma IconSizeMapsAgree(iconSize: string)
    ensures IconSizeCss(iconSize) == Decimal(IconPixelSize(iconSize)) + "px"
  {
    assert Decimal(16) == "16" by { assert Decimal(1) == "1"; }
    assert Decimal(24) == "24" by { assert Decimal(2) == "2"; }
    assert Decimal(32) == "32" by { assert Decimal(3) == "3"; }
  }

  datatype Point = Point(x: int, y: int)

  /** `_getIconPosition`: the cursor moved by the configured offset and the page scroll. */
  function IconPosition(cursor: Point, offset: Point, scroll: Point): Point {
    Point(cursor.x + offset.x + scroll.x, cursor.y + offset.y + scroll.y)
  }
}
