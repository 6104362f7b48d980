/**
 * settings.js: the shared `SETTINGS` table, the per-type coercion `loadSettings`
 * applies to what storage returns, and `updateSetting`.
 */
module Settings {
  import opened Wrappers
  import opened Text
  import opened Seqs

  /** The JavaScript values the coercion tells apart; arrays are arrays of strings. */
  datatype JsValue =
    | Undefined
    | Null
    | Bool(b: bool)
    | Num(n: int)
    | NaN
    | Str(s: string)
    | StrList(items: seq<string>)

  predicate Nullish(v: JsValue) {
    v.Undefined? || v.Null?
  }

  /** A setting's default; its type selects the coercion. */
  datatype Default =
    | BoolDefault(b: bool)
    | NumDefault(n: int)
    | StrDefault(s: string)
    | ListDefault(items: seq<string>)

  function DefaultValue(d: Default): (v: JsValue)
    ensures !Nullish(v)
  {
    match d
    case BoolDefault(b) => Bool(b)
    case NumDefault(n) => Num(n)
    case StrDefault(s) => Str(s)
    case ListDefault(items) => StrList(items)
  }

  /** One entry of `SETTINGS`. */
  datatype Setting = Setting(default: Default, value: JsValue)

  /** The entries of `SETTINGS`, in declaration order. */
  const Keys: seq<string> := [
    "iconDisplayDelay", "iconDisplayTime", "iconDisplayOffsetX", "iconDisplayOffsetY", "iconSize",
    "frameDisplayDelay", "frameDisplayTime", "frameUpdateTime", "bodyRightMarginWidthPx", "previewWidthPx",
    "ignoreXFrameOptions", "ignoreContentSecurityPolicy", "debugMode", "urlFilterList",
    "keepPreviewFrameOpen", "previewEnabled", "customMarginSelectors"]

  /** `SETTINGS` as the script defines it, before anything is loaded. */
  function Defaults(): map<string, Setting> {
    map[
      "iconDisplayDelay" := Setting(NumDefault(200), Null),
      "iconDisplayTime" := Setting(NumDefault(2000), Null),
      "iconDisplayOffsetX" := Setting(NumDefault(-30), Null),
      "iconDisplayOffsetY" := Setting(NumDefault(-30), Null),
      "iconSize" := Setting(StrDefault("small"), Str("small")),
      "frameDisplayDelay" := Setting(NumDefault(500), Null),
      "frameDisplayTime" := Setting(NumDefault(2000), Null),
      "frameUpdateTime" := Setting(NumDefault(500), Null),
      "bodyRightMarginWidthPx" := Setting(NumDefault(800), Null),
      "previewWidthPx" := Setting(NumDefault(800), Null),
      "ignoreXFrameOptions" := Setting(BoolDefault(false), Null),
      "ignoreContentSecurityPolicy" := Setting(BoolDefault(false), Null),
      "debugMode" := Setting(BoolDefault(false), Null),
      "urlFilterList" := Setting(ListDefault([".zip", ".pdf"]), Null),
      "keepPreviewFrameOpen" := Setting(BoolDefault(false), Null),
      "previewEnabled" := Setting(BoolDefault(true), Null),
      "customMarginSelectors" := Setting(ListDefault(["youtube.com,#content", "x.com,#react-root"]), Null)
    ]
  }

  // ------------------------------------------------------------ Number()

  predicate IsDigit(c: char) {
    '0' <= c <= '9'
  }

  predicate AllDigits(s: string) {
    forall i :: 0 <= i < |s| ==> IsDigit(s[i])
  }

  /** The value of a run of decimal digits, read from the right. */
  function DigitsValue(s: string): (n: nat)
    requires AllDigits(s)
  {
    if s == [] then 0 else DigitsValue(s[..|s| - 1]) * 10 + (s[|s| - 1] as int - '0' as int)
  }

  /**
   * `Number(value)` for the values this model distinguishes; string text is read as an
   * optionally signed decimal integer after trimming.
   */
  function ToNumber(v: JsValue): (r: JsValue)
    ensures r.Num? || r.NaN?
  {
    match v
    case Undefined => NaN
    case Null => Num(0)
    case Bool(b) => Num(if b then 1 else 0)
    case Num(n) => Num(n)
    case NaN => NaN
    case Str(s) => TextToNumber(Trim(s))
    case StrList(items) =>
      if |items| == 0 then Num(0)
      else if |items| == 1 then TextToNumber(Trim(items[0]))
      else NaN
  }

  function TextToNumber(t: string): (r: JsValue)
    ensures r.Num? || r.NaN?
  {
    if t == "" then Num(0)
    else if t[0] == '-' && |t| > 1 && AllDigits(t[1..]) then Num(-(DigitsValue(t[1..]) as int))
    else if t[0] == '+' && |t| > 1 && AllDigits(t[1..]) then Num(DigitsValue(t[1..]))
    else if AllDigits(t) then Num(DigitsValue(t))
    else NaN
  }

  /** The decimal text of an integer, as the options form stores it. */
  function IntText(n: int): string {
    if n < 0 then "-" + Decimal(-n) else Decimal(n)
  }

  lemma {:induction false} DecimalDigits(n: nat)
    ensures Decimal(n) != [] && AllDigits(Decimal(n))
    ensures DigitsValue(Decimal(n)) == n
    decreases n
  {
    if n >= 10 {
      DecimalDigits(n / 10);
      var prefix := Decimal(n / 10);
      var last := DigitChar(n % 10);
      var s := prefix + [last];
      assert Decimal(n) == s;
      assert s[..|s| - 1] == prefix;
      assert s[|s| - 1] == last;
      assert forall i :: 0 <= i < |s| ==> s[i] == if i < |prefix| then prefix[i] else last;
      assert DigitsValue(s) == DigitsValue(prefix) * 10 + (n % 10);
    }
  }

  /** Reading back the decimal text of an integer gives the integer. */
  lemma NumberOfIntText(n: int)
    ensures ToNumber(Str(IntText(n))) == Num(n)
  {
    IntTextTrimmed(n);
    TrimOfTrimmed(IntText(n));
    TextOfIntText(n);
  }

  lemma TextOfIntText(n: int)
    ensures TextToNumber(IntText(n)) == Num(n)
  {
    if n < 0 {
      var d := Decimal(-n);
      DecimalDigits(-n);
      var t := "-" + d;
      assert t[1..] == d;
      assert t[0] == '-' && |t| > 1;
      assert TextToNumber(t) == Num(-(DigitsValue(d) as int));
    } else {
      DecimalDigits(n);
      var t := Decimal(n);
      assert IsDigit(t[0]);
      assert t != "" && t[0] != '-' && t[0] != '+';
      assert TextToNumber(t) == Num(DigitsValue(t));
    }
  }

  lemma IntTextTrimmed(n: int)
    ensures IsTrimmed(IntText(n))
  {
    var d := if n < 0 then -n else n;
    DecimalDigits(d);
    var t := IntText(n);
    assert t[|t| - 1] == Decimal(d)[|Decimal(d)| - 1];
    assert IsDigit(t[|t| - 1]);
    assert t[0] == '-' || IsDigit(t[0]);
  }

  // --------------------------------------------------------- coercion

  /** Trims each line and drops the empty ones, keeping their order. */
  function CleanLines(pieces: seq<string>): (items: seq<string>)
  {
    if pieces == [] then []
    else
      var t := Trim(pieces[0]);
      (if t == "" then [] else [t]) + CleanLines(pieces[1..])
  }

  function TrimAll(pieces: seq<string>): (r: seq<string>)
    ensures |r| == |pieces| && forall i :: 0 <= i < |pieces| ==> r[i] == Trim(pieces[i])
  {
    if pieces == [] then [] else [Trim(pieces[0])] + TrimAll(pieces[1..])
  }

  /** Trimming cannot introduce a character the text lacks. */
  lemma TrimKeepsOut(s: string, c: char)
    requires c !in s
    ensures c !in Trim(s)
  {
    TrimChars(s);
  }

  /** A line as the cleaned list holds it: non-empty, no surrounding whitespace, no line break. */
  predicate CleanItem(x: string) {
    x != "" && IsTrimmed(x) && '\n' !in x
  }

  lemma CleanLine(p: string)
    requires '\n' !in p && Trim(p) != ""
    ensures CleanItem(Trim(p))
  {
    TrimKeepsOut(p, '\n');
  }

  /** Each cleaned line is non-empty, has no surrounding whitespace and no line break. */
  lemma {:induction false} CleanLinesAreClean(pieces: seq<string>)
    requires forall k :: 0 <= k < |pieces| ==> '\n' !in pieces[k]
    ensures forall i :: 0 <= i < |CleanLines(pieces)| ==> CleanItem(CleanLines(pieces)[i])
  {
    if pieces != [] {
      var tail := pieces[1..];
      forall k | 0 <= k < |tail|
        ensures '\n' !in tail[k]
      {
        assert tail[k] == pieces[k + 1];
      }
      CleanLinesAreClean(tail);
      var t := Trim(pieces[0]);
      var rest := CleanLines(tail);
      var out := CleanLines(pieces);
      if t != "" {
        CleanLine(pieces[0]);
        assert out == [t] + rest;
        forall i | 0 <= i < |out|
          ensures CleanItem(out[i])
        {
          if i > 0 {
            assert out[i] == rest[i - 1];
          }
        }
      } else {
        assert out == rest;
      }
    }
  }

  /** The cleaned lines are exactly the trimmed lines that are not empty. */
  lemma {:induction false} CleanLinesMembers(pieces: seq<string>)
    ensures forall x :: x in CleanLines(pieces) <==> x in TrimAll(pieces) && x != ""
  {
    if pieces != [] {
      CleanLinesMembers(pieces[1..]);
      var t := Trim(pieces[0]);
      var rest := CleanLines(pieces[1..]);
      var all := TrimAll(pieces[1..]);
      var out := CleanLines(pieces);
      assert TrimAll(pieces) == [t] + all;
      assert out == (if t == "" then [] else [t]) + rest;
      forall x
        ensures x in out <==> x in [t] + all && x != ""
      {
        assert x in [t] + all <==> x == t || x in all;
        assert x in out <==> (t != "" && x == t) || x in rest;
      }
    }
  }

  /**
   * The cleaned lines are the trimmed lines in their order, each non-empty one kept as
   * many times as it occurs and every empty one dropped.
   */
  lemma {:induction false} CleanLinesOrder(pieces: seq<string>)
    ensures IsSubsequence(CleanLines(pieces), TrimAll(pieces))
    ensures forall x :: multiset(CleanLines(pieces))[x] == if x == "" then 0 else multiset(TrimAll(pieces))[x]
  {
    if pieces != [] {
      CleanLinesOrder(pieces[1..]);
      var rest := CleanLines(pieces[1..]);
      var all := TrimAll(pieces[1..]);
      var t := Trim(pieces[0]);
      assert TrimAll(pieces) == [t] + all;
      assert multiset(TrimAll(pieces)) == multiset{t} + multiset(all);
      if t != "" {
        assert CleanLines(pieces) == [t] + rest;
        assert multiset(CleanLines(pieces)) == multiset{t} + multiset(rest);
      } else {
        assert CleanLines(pieces) == rest;
        CleanLinesMembers(pieces[1..]);
        assert rest != [] ==> rest[0] in rest;
      }
    }
  }

  /** The per-type coercion `loadSettings` applies to one stored value, then `?? default`. */
  function Coerce(stored: JsValue, d: Default): JsValue {
    var v := match d
      case BoolDefault(_) => Bool(stored == Str("true") || stored == Bool(true))
      case NumDefault(_) => ToNumber(stored)
      case ListDefault(items) =>
        if stored.Str? && Trim(stored.s) == "" then StrList(items)
        else if stored.Str? then StrList(CleanLines(Split(stored.s, '\n')))
        else stored
      case StrDefault(_) => stored;
    if Nullish(v) then DefaultValue(d) else v
  }

  /** A loaded value is never null or undefined. */
  lemma CoercedNeverNullish(stored: JsValue, d: Default)
    ensures !Nullish(Coerce(stored, d))
  {
  }

  /** A boolean setting is loaded as a boolean, true exactly for `true` and `"true"`. */
  lemma BoolSettingTruth(stored: JsValue, b: bool)
    ensures Coerce(stored, BoolDefault(b)).Bool?
    ensures Coerce(stored, BoolDefault(b)).b <==> stored == Bool(true) || stored == Str("true")
  {
  }

  /** A list setting stored as blank text falls back to its default list. */
  lemma BlankTextGivesDefaultList(s: string, items: seq<string>)
    requires AllWhitespace(s)
    ensures Coerce(Str(s), ListDefault(items)) == StrList(items)
  {
    TrimEmptyIffBlank(s);
  }

  /**
   * A list setting stored as other text is loaded as its non-empty trimmed lines, in
   * order and each as often as it occurs; the list is not empty.
   */
  lemma TextGivesCleanLines(s: string, dflt: seq<string>)
    requires !AllWhitespace(s)
    ensures var r := Coerce(Str(s), ListDefault(dflt));
      var lines := TrimAll(Split(s, '\n'));
      && r.StrList?
      && (forall i :: 0 <= i < |r.items| ==> CleanItem(r.items[i]))
      && (forall x :: x in r.items <==> x in lines && x != "")
      && IsSubsequence(r.items, lines)
      && (forall x :: x != "" ==> multiset(r.items)[x] == multiset(lines)[x])
      && r.items != []
  {
    var pieces := Split(s, '\n');
    TextIsSplit(s, dflt);
    CleanLinesAreClean(pieces);
    CleanLinesMembers(pieces);
    CleanLinesOrder(pieces);
    SomeLineIsNotBlank(s);
    var k :| 0 <= k < |pieces| && Trim(pieces[k]) != "";
    assert Trim(pieces[k]) == TrimAll(pieces)[k];
    assert Trim(pieces[k]) in CleanLines(pieces);
  }

  lemma TextIsSplit(s: string, dflt: seq<string>)
    requires !AllWhitespace(s)
    ensures Coerce(Str(s), ListDefault(dflt)) == StrList(CleanLines(Split(s, '\n')))
  {
    TrimEmptyIffBlank(s);
  }

  /** Text that is not all whitespace has a line that is not all whitespace. */
  lemma SomeLineIsNotBlank(s: string)
    requires !AllWhitespace(s)
    ensures exists k :: 0 <= k < |Split(s, '\n')| && Trim(Split(s, '\n')[k]) != ""
  {
    var pieces := Split(s, '\n');
    if forall k :: 0 <= k < |pieces| ==> Trim(pieces[k]) == "" {
      forall k | 0 <= k < |pieces| ensures AllWhitespace(pieces[k]) {
        TrimEmptyIffBlank(pieces[k]);
      }
      JoinOfBlank(pieces, '\n');
    }
  }

  /** Joining whitespace-only pieces with a line break gives whitespace only. */
  lemma {:induction false} JoinOfBlank(pieces: seq<string>, sep: char)
    requires |pieces| >= 1 && IsWhitespace(sep)
    requires forall k :: 0 <= k < |pieces| ==> AllWhitespace(pieces[k])
    ensures AllWhitespace(Join(pieces, sep))
  {
    if |pieces| > 1 {
      JoinOfBlank(pieces[1..], sep);
    }
  }

  /** Values of string settings, and stored arrays of list settings, are kept as they are. */
  lemma OtherValuesPassThrough(stored: JsValue, d: Default)
    requires !Nullish(stored)
    requires d.StrDefault? || (d.ListDefault? && !stored.Str?)
    ensures Coerce(stored, d) == stored
  {
  }

  /** A missing or null value of a string or list setting becomes its default. */
  lemma NullishGivesDefault(stored: JsValue, d: Default)
    requires Nullish(stored) && (d.StrDefault? || d.ListDefault?)
    ensures Coerce(stored, d) == DefaultValue(d)
  {
  }

  // ------------------------------------------------------------- table

  /**
   * `storedSettings[key]`: `storage.local.get` is asked with every key's default, so a
   * key that storage does not hold comes back as that default.
   */
  function StoredAt(stored: map<string, JsValue>, key: string, d: Default): JsValue {
    if key in stored then stored[key] else DefaultValue(d)
  }

  /** Every entry's value recomputed from what storage returned. */
  function Reloaded(table: map<string, Setting>, stored: map<string, JsValue>): (r: map<string, Setting>)
    ensures r.Keys == table.Keys
  {
    map k | k in table :: table[k].(value := Coerce(StoredAt(stored, k, table[k].default), table[k].default))
  }

  /** Loading twice from the same storage gives what loading once gives. */
  lemma ReloadIdempotent(table: map<string, Setting>, stored: map<string, JsValue>)
    ensures Reloaded(Reloaded(table, stored), stored) == Reloaded(table, stored)
  {
  }

  /** A default goes through the coercion unchanged. */
  lemma DefaultSurvivesCoercion(d: Default)
    ensures Coerce(DefaultValue(d), d) == DefaultValue(d)
  {
  }

  /**
   * A key storage does not hold is loaded as its default, whatever value it had before:
   * `previewEnabled` starts out true.
   */
  lemma MissingKeyLoadsDefault(table: map<string, Setting>, stored: map<string, JsValue>, key: string)
    requires key in table && key !in stored
    ensures Reloaded(table, stored)[key].value == DefaultValue(table[key].default)
  {
    DefaultSurvivesCoercion(table[key].default);
  }

  /** After a load, every entry holds a value that is neither null nor undefined. */
  lemma ReloadedNeverNullish(table: map<string, Setting>, stored: map<string, JsValue>)
    ensures forall k :: k in Reloaded(table, stored) ==> !Nullish(Reloaded(table, stored)[k].value)
  {
  }

  /** How `updateSetting` settles: resolved, or rejected with a reason. */
  datatype Outcome = Resolved | Rejected(reason: string)

  /** `updateSetting(key, value)` on the table. */
  function SetValue(table: map<string, Setting>, key: string, value: JsValue): (map<string, Setting>, Outcome) {
    if key in table then (table[key := table[key].(value := value)], Resolved)
    else (table, Rejected("Invalid setting key: " + key))
  }

  /**
   * A known key gets the value and every other entry, and the key's default, stay; an
   * unknown key is rejected and nothing changes.
   */
  lemma SetValueTouchesOnlyKey(table: map<string, Setting>, key: string, value: JsValue)
    ensures var (t, r) := SetValue(table, key, value);
      && t.Keys == table.Keys
      && (forall k :: k in table && k != key ==> t[k] == table[k])
      && (key in table ==> r == Resolved && t[key].value == value && t[key].default == table[key].default)
      && (key !in table ==> t == table && r.Rejected?)
  {
  }

  /** `SETTINGS` has no entry for the shortener domains or for autoplay. */
  lemma UndeclaredSettings()
    ensures "shortenedUrlDomains" !in Defaults() && "youtubeAutoplay" !in Defaults()
  {
  }

  /** `updateSetting` accepts the declared keys and rejects the two settings that are read but not declared. */
  lemma UnknownKeysRejected(value: JsValue)
    ensures SetValue(Defaults(), "shortenedUrlDomains", value).1 == Rejected("Invalid setting key: shortenedUrlDomains")
    ensures SetValue(Defaults(), "youtubeAutoplay", value).1 == Rejected("Invalid setting key: youtubeAutoplay")
    ensures SetValue(Defaults(), "previewEnabled", value).1 == Resolved
  {
    UndeclaredSettings();
    assert "Invalid setting key: " + "shortenedUrlDomains" == "Invalid setting key: shortenedUrlDomains";
    assert "Invalid setting key: " + "youtubeAutoplay" == "Invalid setting key: youtubeAutoplay";
    assert "previewEnabled" in Defaults();
  }

  /** `SETTINGS`, shared by every script of a context. */
  class SettingsTable {
    var table: map<string, Setting>

    ghost predicate Valid()
      reads this
    {
      forall k :: k in table <==> k in Keys
    }

    constructor ()
      ensures Valid() && table == Defaults()
    {
      table := Defaults();
    }

    /**
     * `loadSettings()`: `read` is what `storage.local.get` resolved with, or None when it
     * failed, in which case every value is left as it was.
     */
    method Load(read: Option<map<string, JsValue>>)
      requires Valid()
      modifies this
      ensures Valid()
      ensures table == if read.None? then old(table) else Reloaded(old(table), read.value)
    {
      if read.None? {
        return;
      }
      var stored := read.value;
      ghost var target := Reloaded(table, stored);
      var remaining := table.Keys;
      while remaining != {}
        invariant remaining <= table.Keys && table.Keys == target.Keys
        invariant forall k :: k in table ==> table[k] == if k in remaining then old(table)[k] else target[k]
        decreases |remaining|
      {
        var key :| key in remaining;
        var entry := table[key];
        table := table[key := entry.(value := Coerce(StoredAt(stored, key, entry.default), entry.default))];
        remaining := remaining - {key};
      }
    }

    /** `updateSetting(key, value)`; the storage write is not modelled. */
    method UpdateSetting(key: string, value: JsValue) returns (r: Outcome)
      requires Valid()
      modifies this
      ensures Valid()
      ensures (table, r) == SetValue(old(table), key, value)
    {
      if key in table {
        table := table[key := table[key].(value := value)];
        r := Resolved;
      } else {
        r := Rejected("Invalid setting key: " + key);
      }
    }
  }
}
