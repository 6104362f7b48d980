/**
 * How the handlers of link_preview.js read the loaded `SETTINGS` table: the delays and
 * the icon offset as numbers, the two flags as booleans, the icon size as text and the
 * URL filter as a list of strings. `PreviewModel.Config` holds exactly these values;
 * `ConfigOf` reads a table into one, and `ReloadedReadable` says for which stored values
 * a freshly loaded table can be read that way.
 */
module Configs {
  import opened Settings
  import opened LinkUrls
  import opened PreviewModel

  predicate NumEntry(t: map<string, Setting>, key: string) {
    key in t && t[key].value.Num?
  }

  predicate BoolEntry(t: map<string, Setting>, key: string) {
    key in t && t[key].value.Bool?
  }

  /** Every entry the handlers read holds a value of the type `Config` gives it. */
  predicate Readable(t: map<string, Setting>) {
    && NumEntry(t, "iconDisplayDelay") && NumEntry(t, "iconDisplayTime")
    && NumEntry(t, "iconDisplayOffsetX") && NumEntry(t, "iconDisplayOffsetY")
    && NumEntry(t, "frameDisplayDelay") && NumEntry(t, "frameDisplayTime") && NumEntry(t, "frameUpdateTime")
    && BoolEntry(t, "previewEnabled") && BoolEntry(t, "keepPreviewFrameOpen")
    && "iconSize" in t && t["iconSize"].value.Str?
    && "urlFilterList" in t && t["urlFilterList"].value.StrList?
  }

  /**
   * The settings as the handlers read them. The shortener domains and the autoplay flag
   * have no entry in the table (`Settings.UndeclaredSettings`), so they are passed in.
   */
  function ConfigOf(t: map<string, Setting>, shortenedUrlDomains: seq<string>, youtubeAutoplay: bool): Config
    requires Readable(t)
  {
    Config(
      t["previewEnabled"].value.b,
      t["keepPreviewFrameOpen"].value.b,
      t["urlFilterList"].value.items,
      shortenedUrlDomains,
      youtubeAutoplay,
      Point(t["iconDisplayOffsetX"].value.n, t["iconDisplayOffsetY"].value.n),
      t["iconSize"].value.s,
      t["iconDisplayDelay"].value.n,
      t["iconDisplayTime"].value.n,
      t["frameDisplayDelay"].value.n,
      t["frameDisplayTime"].value.n,
      t["frameUpdateTime"].value.n)
  }

  /** The entries the handlers read have defaults of the matching type. */
  predicate DefaultsTyped(t: map<string, Setting>) {
    && NumDefaultAt(t, "iconDisplayDelay") && NumDefaultAt(t, "iconDisplayTime")
    && NumDefaultAt(t, "iconDisplayOffsetX") && NumDefaultAt(t, "iconDisplayOffsetY")
    && NumDefaultAt(t, "frameDisplayDelay") && NumDefaultAt(t, "frameDisplayTime") && NumDefaultAt(t, "frameUpdateTime")
    && BoolDefaultAt(t, "previewEnabled") && BoolDefaultAt(t, "keepPreviewFrameOpen")
    && "iconSize" in t && t["iconSize"].default.StrDefault?
    && "urlFilterList" in t && t["urlFilterList"].default.ListDefault?
  }

  predicate NumDefaultAt(t: map<string, Setting>, key: string) {
    key in t && t[key].default.NumDefault?
  }

  predicate BoolDefaultAt(t: map<string, Setting>, key: string) {
    key in t && t[key].default.BoolDefault?
  }

  /** `Number()` of a stored delay or offset is a number, not `NaN`. */
  predicate NumberStored(stored: map<string, JsValue>, key: string) {
    key in stored ==> ToNumber(stored[key]).Num?
  }

  /**
   * What storage may hold for the table to load readable: every stored delay and offset
   * reads as a number, a stored icon size is text, a stored URL filter is text or a list.
   * Null and undefined fall back to the default.
   */
  predicate ReadableStorage(stored: map<string, JsValue>) {
    && NumberStored(stored, "iconDisplayDelay") && NumberStored(stored, "iconDisplayTime")
    && NumberStored(stored, "iconDisplayOffsetX") && NumberStored(stored, "iconDisplayOffsetY")
    && NumberStored(stored, "frameDisplayDelay") && NumberStored(stored, "frameDisplayTime")
    && NumberStored(stored, "frameUpdateTime")
    && ("iconSize" in stored ==> stored["iconSize"].Str? || Nullish(stored["iconSize"]))
    && ("urlFilterList" in stored ==>
          stored["urlFilterList"].Str? || stored["urlFilterList"].StrList? || Nullish(stored["urlFilterList"]))
  }

  /** A number entry loads as a number exactly when what storage holds for it reads as one. */
  lemma ReloadedNumber(t: map<string, Setting>, stored: map<string, JsValue>, key: string)
    requires NumDefaultAt(t, key)
    ensures NumEntry(Reloaded(t, stored), key) <==> NumberStored(stored, key)
  {
  }

  /** A flag always loads as a boolean. */
  lemma ReloadedFlag(t: map<string, Setting>, stored: map<string, JsValue>, key: string)
    requires BoolDefaultAt(t, key)
    ensures BoolEntry(Reloaded(t, stored), key)
  {
  }

  /** A text entry loads as text exactly when storage holds text, nothing, null or undefined for it. */
  lemma ReloadedText(t: map<string, Setting>, stored: map<string, JsValue>, key: string)
    requires key in t && t[key].default.StrDefault?
    ensures Reloaded(t, stored)[key].value.Str? <==> (key in stored ==> stored[key].Str? || Nullish(stored[key]))
  {
  }

  /** A list entry loads as a list exactly when storage holds text, a list, nothing, null or undefined for it. */
  lemma ReloadedList(t: map<string, Setting>, stored: map<string, JsValue>, key: string)
    requires key in t && t[key].default.ListDefault?
    ensures Reloaded(t, stored)[key].value.StrList?
            <==> (key in stored ==> stored[key].Str? || stored[key].StrList? || Nullish(stored[key]))
  {
  }

  /** The table settings.js declares gives the entries the handlers read defaults of the matching type. */
  lemma DefaultsAreTyped()
    ensures DefaultsTyped(Defaults())
  {
    IconDefaultsAreNumbers();
    FrameDefaultsAreNumbers();
    OtherDefaultsAreTyped();
  }

  lemma IconDefaultsAreNumbers()
    ensures NumDefaultAt(Defaults(), "iconDisplayDelay") && NumDefaultAt(Defaults(), "iconDisplayTime")
    ensures NumDefaultAt(Defaults(), "iconDisplayOffsetX") && NumDefaultAt(Defaults(), "iconDisplayOffsetY")
  {
  }

  lemma FrameDefaultsAreNumbers()
    ensures NumDefaultAt(Defaults(), "frameDisplayDelay") && NumDefaultAt(Defaults(), "frameDisplayTime")
    ensures NumDefaultAt(Defaults(), "frameUpdateTime")
  {
  }

  lemma OtherDefaultsAreTyped()
    ensures BoolDefaultAt(Defaults(), "previewEnabled") && BoolDefaultAt(Defaults(), "keepPreviewFrameOpen")
    ensures "iconSize" in Defaults() && Defaults()["iconSize"].default.StrDefault?
    ensures "urlFilterList" in Defaults() && Defaults()["urlFilterList"].default.ListDefault?
  {
  }

  /**
   * A table loaded from storage can be read as a `Config` exactly when storage holds
   * readable values: every flag loads as a boolean whatever was stored, and the other
   * entries keep their type unless storage holds a value of another one.
   */
  lemma ReloadedReadable(t: map<string, Setting>, stored: map<string, JsValue>)
    requires DefaultsTyped(t)
    ensures Readable(Reloaded(t, stored)) <==> ReadableStorage(stored)
  {
    ReloadedNumber(t, stored, "iconDisplayDelay");
    ReloadedNumber(t, stored, "iconDisplayTime");
    ReloadedNumber(t, stored, "iconDisplayOffsetX");
    ReloadedNumber(t, stored, "iconDisplayOffsetY");
    ReloadedNumber(t, stored, "frameDisplayDelay");
    ReloadedNumber(t, stored, "frameDisplayTime");
    ReloadedNumber(t, stored, "frameUpdateTime");
    ReloadedFlag(t, stored, "previewEnabled");
    ReloadedFlag(t, stored, "keepPreviewFrameOpen");
    ReloadedText(t, stored, "iconSize");
    ReloadedList(t, stored, "urlFilterList");
  }

  /**
   * With nothing in storage every entry loads as its default, so the handlers start from
   * the declared defaults: the preview on and unlocked, delays of 200, 2000, 500, 2000 and
   * 500 ms, the icon 30 pixels up and left of the cursor, small, and `.zip` and `.pdf` filtered.
   */
  lemma FreshConfigIsDefault(shortenedUrlDomains: seq<string>, youtubeAutoplay: bool)
    ensures Readable(Reloaded(Defaults(), map[]))
    ensures ConfigOf(Reloaded(Defaults(), map[]), shortenedUrlDomains, youtubeAutoplay)
         == Config(true, false, [".zip", ".pdf"], shortenedUrlDomains, youtubeAutoplay,
                   Point(-30, -30), "small", 200, 2000, 500, 2000, 500)
  {
    DefaultsAreTyped();
    ReloadedReadable(Defaults(), map[]);
    FreshIconEntries();
    FreshFrameEntries();
    FreshOtherEntries();
  }

  lemma FreshIconEntries()
    ensures Reloaded(Defaults(), map[])["iconDisplayDelay"].value == Num(200)
    ensures Reloaded(Defaults(), map[])["iconDisplayTime"].value == Num(2000)
    ensures Reloaded(Defaults(), map[])["iconDisplayOffsetX"].value == Num(-30)
    ensures Reloaded(Defaults(), map[])["iconDisplayOffsetY"].value == Num(-30)
  {
    FreshIconTimes();
    FreshIconOffset();
  }

  lemma FreshIconTimes()
    ensures Reloaded(Defaults(), map[])["iconDisplayDelay"].value == Num(200)
    ensures Reloaded(Defaults(), map[])["iconDisplayTime"].value == Num(2000)
  {
    MissingKeyLoadsDefault(Defaults(), map[], "iconDisplayDelay");
    MissingKeyLoadsDefault(Defaults(), map[], "iconDisplayTime");
  }

  lemma FreshIconOffset()
    ensures Reloaded(Defaults(), map[])["iconDisplayOffsetX"].value == Num(-30)
    ensures Reloaded(Defaults(), map[])["iconDisplayOffsetY"].value == Num(-30)
  {
    MissingKeyLoadsDefault(Defaults(), map[], "iconDisplayOffsetX");
    MissingKeyLoadsDefault(Defaults(), map[], "iconDisplayOffsetY");
  }

  lemma FreshFrameEntries()
    ensures Reloaded(Defaults(), map[])["frameDisplayDelay"].value == Num(500)
    ensures Reloaded(Defaults(), map[])["frameDisplayTime"].value == Num(2000)
    ensures Reloaded(Defaults(), map[])["frameUpdateTime"].value == Num(500)
  {
    MissingKeyLoadsDefault(Defaults(), map[], "frameDisplayDelay");
    MissingKeyLoadsDefault(Defaults(), map[], "frameDisplayTime");
    MissingKeyLoadsDefault(Defaults(), map[], "frameUpdateTime");
  }

  lemma FreshOtherEntries()
    ensures Reloaded(Defaults(), map[])["previewEnabled"].value == Bool(true)
    ensures Reloaded(Defaults(), map[])["keepPreviewFrameOpen"].value == Bool(false)
    ensures Reloaded(Defaults(), map[])["iconSize"].value == Str("small")
    ensures Reloaded(Defaults(), map[])["urlFilterList"].value == StrList([".zip", ".pdf"])
  {
    MissingKeyLoadsDefault(Defaults(), map[], "previewEnabled");
    MissingKeyLoadsDefault(Defaults(), map[], "keepPreviewFrameOpen");
    MissingKeyLoadsDefault(Defaults(), map[], "iconSize");
    MissingKeyLoadsDefault(Defaults(), map[], "urlFilterList");
  }
}
