/**
  The persisted configuration: `_load_config` turns the parsed config.json
  into settings and rules, `_save_config` turns them back into a JSON object.
  Reading and writing the file and the JSON text itself are not modelled; the
  load starts from the parsed document (or from its absence).
 */
module Config {
  import opened Wrappers
  import opened PyText
  import opened RuleTable

  /** The process-wide settings the application keeps beside the rules. */
  datatype Settings = Settings(
    muted: bool,
    token: string,
    trayOnMinimize: bool,
    pushEnabled: bool,
    pushUserKey: string,
    pushAppToken: string,
    pushWhenMuted: bool,
    pushIncludeMessage: bool
  )

  /** The values the application starts from before reading the file. */
  const Defaults := Settings(false, "", true, false, "", "", true, true)

  /** Everything `_load_config` fills in and `_save_config` writes out. */
  datatype Config = Config(settings: Settings, rules: seq<Rule>)

  /** What reading config.json yielded: no file, text `json.loads` refused, or a parsed value. */
  datatype Source = Missing | Unparseable | Parsed(data: Json)

  /** How one entry of the "rules" list fared: an exception, skipped, or loaded. */
  datatype EntryResult = Raises | Skipped | Loaded(rule: Rule)

  /** The keys the settings are read from and written to. */
  const SettingKeys: set<string> := {
    "mute", "token", "tray_on_minimize", "pushover_enabled", "pushover_user_key",
    "pushover_app_token", "pushover_push_when_muted", "pushover_include_message"
  }

  /** `str(v or "").strip()`. */
  function TextOrEmpty(v: Json, repr: Json -> string): (r: string)
    ensures IsTrimmed(r)
    ensures !Truthy(v) ==> r == []
    ensures v.Str? ==> r == Trim(v.s)
    ensures v.Str? && IsTrimmed(v.s) ==> r == v.s
  {
    Trim(ToText(Or(v, Str("")), repr))
  }

  /** `str(v).strip()`: unlike `TextOrEmpty`, a JSON null reads as "None". */
  function TextOf(v: Json, repr: Json -> string): (r: string)
    ensures IsTrimmed(r)
    ensures v.Null? ==> r == "None"
    ensures v.Str? ==> r == Trim(v.s)
    ensures v.Str? && IsTrimmed(v.s) ==> r == v.s
  {
    Trim(ToText(v, repr))
  }

  /** `bool(d.get(key, default))`, a flag read from a JSON object. */
  function Flag(f: map<string, Json>, key: string, default: bool): (r: bool)
    ensures key !in f ==> r == default
    ensures key in f && f[key].Bool? ==> r == f[key].b
  {
    Truthy(Get(f, key, Bool(default)))
  }

  /** `str(d.get(key, "") or "").strip()`, a text field that a null leaves empty. */
  function TextField(f: map<string, Json>, key: string, repr: Json -> string): (r: string)
    ensures IsTrimmed(r)
    ensures key !in f ==> r == []
    ensures key in f && !Truthy(f[key]) ==> r == []
    ensures key in f && f[key].Str? ==> r == Trim(f[key].s)
    ensures key in f && f[key].Str? && IsTrimmed(f[key].s) ==> r == f[key].s
  {
    TextOrEmpty(Get(f, key, Str("")), repr)
  }

  /** `str(d.get(key, "")).strip()`, a text field that a null turns into "None". */
  function StrictTextField(f: map<string, Json>, key: string, repr: Json -> string): (r: string)
    ensures IsTrimmed(r)
    ensures key !in f ==> r == []
    ensures key in f && f[key].Str? ==> r == Trim(f[key].s)
    ensures key in f && f[key].Str? && IsTrimmed(f[key].s) ==> r == f[key].s
  {
    TextOf(Get(f, key, Str("")), repr)
  }

  /**
    `int(d.get("volume", 100) or 100)`: a missing, null, false, zero or empty
    volume reads as 100, and `None` stands for the exception `int()` raises.
   */
  function VolumeField(f: map<string, Json>): (r: Option<int>)
    ensures !Truthy(Get(f, "volume", Int(100))) ==> r == Some(100)
    ensures "volume" in f && f["volume"].Int? && f["volume"].i != 0 ==> r == Some(f["volume"].i)
    ensures "volume" in f && (f["volume"].Arr? || f["volume"].Obj?) && Truthy(f["volume"]) ==> r.None?
  {
    ToInt(Or(Get(f, "volume", Int(100)), Int(100)))
  }

  /** What every rule coming out of a load satisfies. */
  predicate Normalised(r: Rule) {
    && r.userId != []
    && IsTrimmed(r.name)
    && IsTrimmed(r.userId)
    && IsTrimmed(r.soundPath)
    && IsTrimmed(r.pushSound)
    && 0 <= r.volume <= 100
  }

  /**
    One entry of the "rules" list. A non-object entry raises; an entry whose
    stripped user id is empty is skipped; a volume `int()` cannot convert
    raises. A missing, null or zero volume reads as 100, and an empty
    per-rule push sound falls back to the legacy global one.
   */
  function LoadEntry(e: Json, legacy: string, repr: Json -> string): (r: EntryResult)
    requires IsTrimmed(legacy)
    ensures !e.Obj? ==> r == Raises
    ensures e.Obj? ==> (r == Skipped <==> StrictTextField(e.fields, "user_id", repr) == [])
    ensures e.Obj? && r != Skipped ==> (r == Raises <==> VolumeField(e.fields).None?)
    ensures r.Loaded? ==> Normalised(r.rule)
    ensures r.Loaded? ==> r.rule.userId == StrictTextField(e.fields, "user_id", repr)
    ensures r.Loaded? ==> r.rule.name == StrictTextField(e.fields, "name", repr)
    ensures r.Loaded? ==> r.rule.soundPath == StrictTextField(e.fields, "sound_path", repr)
    ensures r.Loaded? ==> r.rule.volume == ClampVolume(VolumeField(e.fields).value)
    ensures r.Loaded? && TextField(e.fields, "pushover_sound", repr) == [] ==> r.rule.pushSound == legacy
    ensures r.Loaded? && TextField(e.fields, "pushover_sound", repr) != [] ==>
              r.rule.pushSound == TextField(e.fields, "pushover_sound", repr)
  {
    if !e.Obj? then Raises
    else
      var f := e.fields;
      var userId := StrictTextField(f, "user_id", repr);
      if userId == [] then Skipped
      else
        var own := TextField(f, "pushover_sound", repr);
        var pushSound := if own == [] && legacy != [] then legacy else own;
        match VolumeField(f)
        case None => Raises
        case Some(v) =>
          Loaded(Rule(
            StrictTextField(f, "name", repr),
            userId,
            StrictTextField(f, "sound_path", repr),
            ClampVolume(v),
            pushSound))
  }

  /** Some entry of the list raises when loaded. */
  predicate SomeEntryRaises(entries: seq<Json>, legacy: string, repr: Json -> string)
    requires IsTrimmed(legacy)
  {
    exists i :: 0 <= i < |entries| && LoadEntry(entries[i], legacy, repr).Raises?
  }

  /** How each entry of the list fares on its own. */
  function Outcomes(entries: seq<Json>, legacy: string, repr: Json -> string): (rs: seq<EntryResult>)
    requires IsTrimmed(legacy)
    ensures |rs| == |entries|
    ensures forall i :: 0 <= i < |entries| ==> rs[i] == LoadEntry(entries[i], legacy, repr)
  {
    seq(|entries|, i requires 0 <= i < |entries| => LoadEntry(entries[i], legacy, repr))
  }

  /** The rules of the loaded outcomes, in order, every other outcome passed over. */
  function Collect(rs: seq<EntryResult>): (r: seq<Rule>)
    ensures |r| <= |rs|
  {
    if |rs| == 0 then []
    else if rs[0].Loaded? then [rs[0].rule] + Collect(rs[1..])
    else Collect(rs[1..])
  }

  /** Every loaded outcome contributes its rule. */
  lemma {:induction false} CollectKeeps(rs: seq<EntryResult>, i: nat)
    requires i < |rs| && rs[i].Loaded?
    ensures rs[i].rule in Collect(rs)
    decreases i
  {
    if i > 0 {
      assert rs[1..][i - 1] == rs[i];
      CollectKeeps(rs[1..], i - 1);
    }
  }

  /** Every collected rule comes from a loaded outcome. */
  lemma {:induction false} CollectFrom(rs: seq<EntryResult>, k: nat)
    requires k < |Collect(rs)|
    ensures exists i :: 0 <= i < |rs| && rs[i] == Loaded(Collect(rs)[k])
    decreases |rs|
  {
    var r := Collect(rs);
    if !(rs[0].Loaded? && k == 0) {
      var k' := if rs[0].Loaded? then k - 1 else k;
      assert r[k] == Collect(rs[1..])[k'];
      CollectFrom(rs[1..], k');
      var i :| 0 <= i < |rs[1..]| && rs[1..][i] == Loaded(Collect(rs[1..])[k']);
      assert rs[i + 1] == rs[1..][i];
    }
  }

  /**
    The rules of the entries that load, in list order, with every other entry
    passed over: what the loop collects when nothing raises.
   */
  function LoadedRules(entries: seq<Json>, legacy: string, repr: Json -> string): (r: seq<Rule>)
    requires IsTrimmed(legacy)
  {
    Collect(Outcomes(entries, legacy, repr))
  }

  /** Every entry that loads contributes its rule, and every collected rule is one an entry loads as. */
  lemma LoadedRulesComplete(entries: seq<Json>, legacy: string, repr: Json -> string)
    requires IsTrimmed(legacy)
    ensures forall i :: 0 <= i < |entries| && LoadEntry(entries[i], legacy, repr).Loaded? ==>
              LoadEntry(entries[i], legacy, repr).rule in LoadedRules(entries, legacy, repr)
    ensures forall k :: 0 <= k < |LoadedRules(entries, legacy, repr)| ==>
              exists i :: 0 <= i < |entries| && LoadEntry(entries[i], legacy, repr) == Loaded(LoadedRules(entries, legacy, repr)[k])
  {
    var rs := Outcomes(entries, legacy, repr);
    forall i | 0 <= i < |entries| && LoadEntry(entries[i], legacy, repr).Loaded? {
      CollectKeeps(rs, i);
    }
    var r := LoadedRules(entries, legacy, repr);
    assert r == Collect(rs);
    forall k | 0 <= k < |r|
      ensures exists i :: 0 <= i < |entries| && LoadEntry(entries[i], legacy, repr) == Loaded(r[k])
    {
      CollectFrom(rs, k);
      var i :| 0 <= i < |rs| && rs[i] == Loaded(Collect(rs)[k]);
      assert LoadEntry(entries[i], legacy, repr) == rs[i];
    }
  }

  /** Collecting over two stretches of outcomes is collecting over each in turn. */
  lemma {:induction false} CollectAppend(xs: seq<EntryResult>, ys: seq<EntryResult>)
    ensures Collect(xs + ys) == Collect(xs) + Collect(ys)
    decreases |xs|
  {
    if |xs| == 0 {
      assert xs + ys == ys;
    } else {
      assert (xs + ys)[0] == xs[0];
      assert (xs + ys)[1..] == xs[1..] + ys;
      CollectAppend(xs[1..], ys);
    }
  }

  /**
    The loop over the "rules" list: entries load in order, skipped ones leave
    no rule behind, and an exception anywhere discards the whole list (`None`).
   */
  function LoadEntries(entries: seq<Json>, legacy: string, repr: Json -> string): (r: Option<seq<Rule>>)
    requires IsTrimmed(legacy)
    ensures r.None? <==> SomeEntryRaises(entries, legacy, repr)
    ensures r.Some? ==> r.value == LoadedRules(entries, legacy, repr)
    ensures r.Some? ==> forall i :: 0 <= i < |r.value| ==> Normalised(r.value[i])
  {
    if |entries| == 0 then Some([])
    else
      assert forall i :: 1 <= i < |entries| ==> entries[1..][i - 1] == entries[i];
      assert SomeEntryRaises(entries, legacy, repr) <==>
               LoadEntry(entries[0], legacy, repr).Raises? || SomeEntryRaises(entries[1..], legacy, repr) by {
        if SomeEntryRaises(entries, legacy, repr) {
          var i :| 0 <= i < |entries| && LoadEntry(entries[i], legacy, repr).Raises?;
          if i > 0 {
            assert entries[1..][i - 1] == entries[i];
          }
        }
      }
      assert Outcomes(entries, legacy, repr)[1..] == Outcomes(entries[1..], legacy, repr);
      match LoadEntry(entries[0], legacy, repr)
      case Raises => None
      case Skipped => LoadEntries(entries[1..], legacy, repr)
      case Loaded(rule) =>
        match LoadEntries(entries[1..], legacy, repr)
        case None => None
        case Some(rest) => Some([rule] + rest)
  }

  /**
    `for r in data.get("rules", [])`: a list is walked; an empty string or an
    empty object yields nothing; anything else raises on the first element or
    is not iterable at all.
   */
  function RulesOf(v: Json, legacy: string, repr: Json -> string): (r: Option<seq<Rule>>)
    requires IsTrimmed(legacy)
    ensures v.Arr? ==> r == LoadEntries(v.items, legacy, repr)
    ensures v.Null? || v.Bool? || v.Int? ==> r.None?
    ensures r.Some? ==> forall i :: 0 <= i < |r.value| ==> Normalised(r.value[i])
  {
    match v
    case Arr(items) => LoadEntries(items, legacy, repr)
    case Str(s) => if s == [] then Some([]) else None
    case Obj(m) => if m == map[] then Some([]) else None
    case _ => None
  }

  /** The settings read from a JSON object, each missing key taking its documented default. */
  function SettingsOf(f: map<string, Json>, repr: Json -> string): (s: Settings)
    ensures (forall k :: k in f ==> k !in SettingKeys) ==> s == Defaults
    ensures "mute" !in f ==> !s.muted
    ensures "tray_on_minimize" !in f ==> s.trayOnMinimize
    ensures "pushover_enabled" !in f ==> !s.pushEnabled
    ensures "pushover_push_when_muted" !in f ==> s.pushWhenMuted
    ensures "pushover_include_message" !in f ==> s.pushIncludeMessage
    ensures "token" !in f ==> s.token == []
    ensures "mute" in f && f["mute"].Bool? ==> s.muted == f["mute"].b
    ensures "tray_on_minimize" in f && f["tray_on_minimize"].Bool? ==> s.trayOnMinimize == f["tray_on_minimize"].b
    ensures "pushover_enabled" in f && f["pushover_enabled"].Bool? ==> s.pushEnabled == f["pushover_enabled"].b
    ensures "pushover_push_when_muted" in f && f["pushover_push_when_muted"].Bool? ==>
              s.pushWhenMuted == f["pushover_push_when_muted"].b
    ensures "pushover_include_message" in f && f["pushover_include_message"].Bool? ==>
              s.pushIncludeMessage == f["pushover_include_message"].b
    ensures "token" in f && f["token"].Str? ==> s.token == Trim(f["token"].s)
    ensures "pushover_user_key" in f && f["pushover_user_key"].Str? ==> s.pushUserKey == Trim(f["pushover_user_key"].s)
    ensures "pushover_app_token" in f && f["pushover_app_token"].Str? ==> s.pushAppToken == Trim(f["pushover_app_token"].s)
    ensures IsTrimmed(s.token) && IsTrimmed(s.pushUserKey) && IsTrimmed(s.pushAppToken)
  {
    Settings(
      Flag(f, "mute", false),
      TextField(f, "token", repr),
      Flag(f, "tray_on_minimize", true),
      Flag(f, "pushover_enabled", false),
      TextField(f, "pushover_user_key", repr),
      TextField(f, "pushover_app_token", repr),
      Flag(f, "pushover_push_when_muted", true),
      Flag(f, "pushover_include_message", true))
  }

  /** The legacy global push sound of older versions, stripped. */
  function LegacySound(f: map<string, Json>, repr: Json -> string): (r: string)
    ensures IsTrimmed(r)
    ensures "pushover_sound" !in f ==> r == []
    ensures "pushover_sound" in f && f["pushover_sound"].Str? ==> r == Trim(f["pushover_sound"].s)
  {
    TextField(f, "pushover_sound", repr)
  }

  /**
    `_load_config`, starting from the defaults. A missing or unreadable file
    and a document that is not an object leave the defaults and no rules; an
    exception while reading the rule list leaves the settings read so far and
    an empty rule list.
   */
  function Load(src: Source, repr: Json -> string): (c: Config)
    ensures !(src.Parsed? && src.data.Obj?) ==> c == Config(Defaults, [])
    ensures src.Parsed? && src.data.Obj? ==> c.settings == SettingsOf(src.data.fields, repr)
    ensures src.Parsed? && src.data.Obj? ==>
              var f := src.data.fields;
              var listed := RulesOf(Get(f, "rules", Arr([])), LegacySound(f, repr), repr);
              c.rules == if listed.Some? then listed.value else []
    ensures forall i :: 0 <= i < |c.rules| ==> Normalised(c.rules[i])
  {
    match src
    case Parsed(Obj(f)) =>
      var loaded := RulesOf(Get(f, "rules", Arr([])), LegacySound(f, repr), repr);
      Config(SettingsOf(f, repr), loaded.GetOr([]))
    case _ => Config(Defaults, [])
  }

  /** The keys `_save_config` writes, the legacy "pushover_sound" not among them. */
  const SavedKeys: set<string> := SettingKeys + {"rules"}

  /** One rule as `_save_config` writes it; only the push sound is stripped on the way out. */
  function SaveRule(r: Rule): (j: Json)
    ensures j.Obj? && j.fields.Keys == {"name", "user_id", "sound_path", "volume", "pushover_sound"}
  {
    Obj(map[
      "name" := Str(r.name),
      "user_id" := Str(r.userId),
      "sound_path" := Str(r.soundPath),
      "volume" := Int(r.volume),
      "pushover_sound" := Str(Trim(r.pushSound))
    ])
  }

  /** The "rules" list as `_save_config` writes it: one object per rule, in table order. */
  function SaveRules(rules: seq<Rule>): (js: seq<Json>)
    ensures |js| == |rules|
    ensures forall i :: 0 <= i < |rules| ==> js[i] == SaveRule(rules[i])
  {
    if |rules| == 0 then [] else [SaveRule(rules[0])] + SaveRules(rules[1..])
  }

  /** `_save_config`: the settings and the rules, in table order, as one JSON object. */
  function Save(c: Config): (j: Json)
    ensures j.Obj? && j.fields.Keys == SavedKeys
    ensures "rules" in j.fields && j.fields["rules"].Arr? && |j.fields["rules"].items| == |c.rules|
  {
    var s := c.settings;
    Obj(map[
      "mute" := Bool(s.muted),
      "token" := Str(s.token),
      "tray_on_minimize" := Bool(s.trayOnMinimize),
      "pushover_enabled" := Bool(s.pushEnabled),
      "pushover_user_key" := Str(s.pushUserKey),
      "pushover_app_token" := Str(s.pushAppToken),
      "pushover_push_when_muted" := Bool(s.pushWhenMuted),
      "pushover_include_message" := Bool(s.pushIncludeMessage),
      "rules" := Arr(SaveRules(c.rules))
    ])
  }

  /**
    The states a save can be read back from unchanged: every text field already
    stripped, every user id non-empty and every volume in 1..100.
   */
  predicate RoundTrips(c: Config) {
    && IsTrimmed(c.settings.token)
    && IsTrimmed(c.settings.pushUserKey)
    && IsTrimmed(c.settings.pushAppToken)
    && forall i :: 0 <= i < |c.rules| ==> Normalised(c.rules[i]) && c.rules[i].volume != 0
  }

  /**
    An object whose fields read back as `r` loads as `r`, the push sound taken
    from the legacy one when the object's own is empty.
   */
  lemma EntryLoadsAs(f: map<string, Json>, legacy: string, r: Rule, repr: Json -> string)
    requires IsTrimmed(legacy)
    requires r.userId != [] && 0 <= r.volume <= 100
    requires StrictTextField(f, "user_id", repr) == r.userId
    requires StrictTextField(f, "name", repr) == r.name
    requires StrictTextField(f, "sound_path", repr) == r.soundPath
    requires VolumeField(f) == Some(r.volume)
    requires r.pushSound == if TextField(f, "pushover_sound", repr) == [] then legacy else TextField(f, "pushover_sound", repr)
    ensures LoadEntry(Obj(f), legacy, repr) == Loaded(r)
  {
    var e := LoadEntry(Obj(f), legacy, repr);
    assert e != Skipped && e != Raises;
  }

  /** The volume a saved volume reads back as: `int(v or 100)` turns 0 into 100. */
  function ReloadedVolume(v: int): int {
    if v == 0 then 100 else v
  }

  /** The fields `SaveRule` writes for a normalised rule read back unchanged, save a zero volume. */
  lemma SavedRuleFields(r: Rule, repr: Json -> string)
    requires Normalised(r)
    ensures var f := SaveRule(r).fields;
            && StrictTextField(f, "user_id", repr) == r.userId
            && StrictTextField(f, "name", repr) == r.name
            && StrictTextField(f, "sound_path", repr) == r.soundPath
            && TextField(f, "pushover_sound", repr) == r.pushSound
            && VolumeField(f) == Some(ReloadedVolume(r.volume))
  {
    var f := SaveRule(r).fields;
    assert f["user_id"] == Str(r.userId) && f["name"] == Str(r.name) && f["sound_path"] == Str(r.soundPath);
    assert f["volume"] == Int(r.volume) && f["pushover_sound"] == Str(Trim(r.pushSound));
  }

  /**
    A normalised rule written by `_save_config` loads back as itself, except
    that a volume of 0 comes back as 100 (`int(0 or 100)` is 100).
   */
  lemma SavedRuleLoads(r: Rule, repr: Json -> string)
    requires Normalised(r)
    ensures LoadEntry(SaveRule(r), "", repr) == Loaded(r.(volume := ReloadedVolume(r.volume)))
  {
    SavedRuleFields(r, repr);
    EntryLoadsAs(SaveRule(r).fields, "", r.(volume := ReloadedVolume(r.volume)), repr);
  }

  /** Each rule as a reload gives it back: a zero volume turns into 100, nothing else changes. */
  function ReloadAll(rules: seq<Rule>): (rs: seq<Rule>)
    ensures |rs| == |rules|
    ensures forall i :: 0 <= i < |rules| ==> rs[i] == rules[i].(volume := ReloadedVolume(rules[i].volume))
  {
    if |rules| == 0 then [] else [rules[0].(volume := ReloadedVolume(rules[0].volume))] + ReloadAll(rules[1..])
  }

  lemma {:induction false} SavedRulesLoad(rules: seq<Rule>, repr: Json -> string)
    requires forall i :: 0 <= i < |rules| ==> Normalised(rules[i])
    ensures LoadEntries(SaveRules(rules), "", repr) == Some(ReloadAll(rules))
    decreases |rules|
  {
    if |rules| > 0 {
      var saved := SaveRules(rules);
      assert saved[1..] == SaveRules(rules[1..]);
      SavedRuleLoads(rules[0], repr);
      SavedRulesLoad(rules[1..], repr);
    }
  }

  /** What `_save_config` writes under each settings key, and that it writes no legacy sound. */
  lemma SavedSettingsFields(c: Config)
    ensures var f := Save(c).fields; var s := c.settings;
            && f["mute"] == Bool(s.muted)
            && f["token"] == Str(s.token)
            && f["tray_on_minimize"] == Bool(s.trayOnMinimize)
            && f["pushover_enabled"] == Bool(s.pushEnabled)
            && f["pushover_user_key"] == Str(s.pushUserKey)
            && f["pushover_app_token"] == Str(s.pushAppToken)
            && f["pushover_push_when_muted"] == Bool(s.pushWhenMuted)
            && f["pushover_include_message"] == Bool(s.pushIncludeMessage)
            && "pushover_sound" !in f
  {
    SavedMuteAndToken(c);
    SavedSwitches(c);
    SavedCredentials(c);
    SavedPushOptions(c);
    SavedNoLegacySound(c);
  }

  /** The mute switch and the bot token are written under their keys. */
  lemma SavedMuteAndToken(c: Config)
    ensures var f := Save(c).fields;
            f["mute"] == Bool(c.settings.muted) && f["token"] == Str(c.settings.token)
  {
  }

  /** The tray switch and the push switch are written under their keys. */
  lemma SavedSwitches(c: Config)
    ensures var f := Save(c).fields;
            && f["tray_on_minimize"] == Bool(c.settings.trayOnMinimize)
            && f["pushover_enabled"] == Bool(c.settings.pushEnabled)
  {
  }

  /** The push credentials are written as strings under their keys. */
  lemma SavedCredentials(c: Config)
    ensures var f := Save(c).fields;
            && f["pushover_user_key"] == Str(c.settings.pushUserKey)
            && f["pushover_app_token"] == Str(c.settings.pushAppToken)
  {
  }

  /** The two push options are written as booleans under their keys. */
  lemma SavedPushOptions(c: Config)
    ensures var f := Save(c).fields;
            && f["pushover_push_when_muted"] == Bool(c.settings.pushWhenMuted)
            && f["pushover_include_message"] == Bool(c.settings.pushIncludeMessage)
  {
  }

  /** The legacy global push sound is not written. */
  lemma SavedNoLegacySound(c: Config)
    ensures "pushover_sound" !in Save(c).fields
  {
  }

  /** An object holding the settings under their own keys, text already stripped, reads back as them. */
  lemma SettingsReadBack(f: map<string, Json>, s: Settings, repr: Json -> string)
    requires IsTrimmed(s.token) && IsTrimmed(s.pushUserKey) && IsTrimmed(s.pushAppToken)
    requires SettingKeys <= f.Keys
    requires f["mute"] == Bool(s.muted)
    requires f["token"] == Str(s.token)
    requires f["tray_on_minimize"] == Bool(s.trayOnMinimize)
    requires f["pushover_enabled"] == Bool(s.pushEnabled)
    requires f["pushover_user_key"] == Str(s.pushUserKey)
    requires f["pushover_app_token"] == Str(s.pushAppToken)
    requires f["pushover_push_when_muted"] == Bool(s.pushWhenMuted)
    requires f["pushover_include_message"] == Bool(s.pushIncludeMessage)
    ensures SettingsOf(f, repr) == s
  {
  }

  /**
    Saving and loading again keeps the settings and the rules in table order,
    except that a rule saved at volume 0 comes back at 100.
   */
  lemma SaveThenLoad(c: Config, repr: Json -> string)
    requires IsTrimmed(c.settings.token) && IsTrimmed(c.settings.pushUserKey) && IsTrimmed(c.settings.pushAppToken)
    requires forall i :: 0 <= i < |c.rules| ==> Normalised(c.rules[i])
    ensures Load(Parsed(Save(c)), repr) == Config(c.settings, ReloadAll(c.rules))
  {
    var f := Save(c).fields;
    SavedSettingsFields(c);
    SettingsReadBack(f, c.settings, repr);
    assert Get(f, "rules", Arr([])) == Arr(SaveRules(c.rules));
    assert LegacySound(f, repr) == [];
    SavedRulesLoad(c.rules, repr);
  }

  /**
    Save-then-load law: a configuration in the shape a load produces, with no
    rule at volume 0, is read back exactly as it was saved.
   */
  lemma SaveLoadRoundTrip(c: Config, repr: Json -> string)
    requires RoundTrips(c)
    ensures Load(Parsed(Save(c)), repr) == c
  {
    SaveThenLoad(c, repr);
    ReloadAllKeeps(c.rules);
  }

  /** Rules at a non-zero volume in range read back unchanged. */
  lemma ReloadAllKeeps(rules: seq<Rule>)
    requires forall i :: 0 <= i < |rules| ==> Normalised(rules[i]) && rules[i].volume != 0
    ensures ReloadAll(rules) == rules
  {
    assert forall i :: 0 <= i < |rules| ==> ReloadAll(rules)[i] == rules[i];
  }

  /** A rule whose volume reached 0 comes back at full volume: `int(0 or 100)` is 100. */
  lemma ZeroVolumeReloadsAsFull(r: Rule, repr: Json -> string)
    requires Normalised(r) && r.volume == 0
    ensures Load(Parsed(Save(Config(Defaults, [r]))), repr).rules == [r.(volume := 100)]
  {
    SaveThenLoad(Config(Defaults, [r]), repr);
  }

  /**
    With the legacy global push sound set, a saved rule without a push sound of
    its own picks the legacy one up on load; a rule with its own keeps it.
   */
  lemma LegacySoundMigrates(r: Rule, legacy: string, repr: Json -> string)
    requires Normalised(r) && r.volume != 0 && IsTrimmed(legacy)
    ensures var f := map["pushover_sound" := Str(legacy), "rules" := Arr([SaveRule(r)])];
            Load(Parsed(Obj(f)), repr).rules == [if r.pushSound == [] then r.(pushSound := legacy) else r]
  {
    var f := map["pushover_sound" := Str(legacy), "rules" := Arr([SaveRule(r)])];
    var loaded := if r.pushSound == [] then r.(pushSound := legacy) else r;
    assert LegacySound(f, repr) == legacy by {
      assert f["pushover_sound"] == Str(legacy);
    }
    SavedRuleFields(r, repr);
    EntryLoadsAs(SaveRule(r).fields, legacy, loaded, repr);
    assert Get(f, "rules", Arr([])) == Arr([SaveRule(r)]);
    SingleEntryLoads(SaveRule(r), legacy, loaded, repr);
  }

  /** A one-entry list loads as the rule its entry loads as. */
  lemma SingleEntryLoads(e: Json, legacy: string, r: Rule, repr: Json -> string)
    requires IsTrimmed(legacy)
    requires LoadEntry(e, legacy, repr) == Loaded(r)
    ensures LoadEntries([e], legacy, repr) == Some([r])
  {
    var es := [e];
    assert es[0] == e && es[1..] == [];
    assert LoadEntries(es[1..], legacy, repr) == Some([]);
    assert [r] + [] == [r];
  }
}
