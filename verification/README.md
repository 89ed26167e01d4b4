# TalkAlert core in Dafny

TalkAlert is a desktop notifier for Discord. A bot account watches incoming
messages. When the author of a message matches one of the user's rules, it
plays that rule's sound and can send a Pushover push to a phone.

This project models the application's logic in `src/TalkAlert.py` as pure
Dafny functions over immutable data, and proves what that code guarantees:

- **Rule table** (`rules.dfy`, module `RuleTable`). This covers the `Rule`
  record, `_find_rule`, and the validated `add_rule`, `update_rule` and
  `remove_rule`, each with the exact order of its checks. The entry fields of
  the form become a `RuleForm` value. A refused action returns the table
  unchanged together with the reason.
- **Reordering** (`ordering.dfy`, module `RuleOrder`). This covers the copy of
  the displayed row order after a drag (`_sync_rules_from_tree_order`) and the
  toggling sort of the Name heading (`_on_name_heading_click`). The sort is
  Python's stable `list.sort` by a folded name, followed by `list.reverse()`
  for the descending direction.
- **Configuration** (`config.dfy`, module `Config`). This covers
  `_load_config` and `_save_config` over parsed JSON values, with the legacy
  global push sound migrated onto the rules. Python's `str()`, `.strip()`,
  `int()`, `bool()`, `or` and `dict.get` are written out in `pytext.dfy`.
- **Playback** (`playback.dfy`, module `Playback`). This covers `_play_sound`,
  `_stop_sound` and `toggle_mute`. It also covers the gate in
  `_update_volume_label` that lets the slider reach only the selected rule's
  sound.
- **Push** (`pushover.dfy`, module `Pushover`). This covers
  `_pushover_request_sync`: the credentials check, the form fields posted, and
  how the answer is turned into `(ok, reason)`.
- **Dispatch** (`dispatch.dfy`, module `Dispatch`). This covers the body of the
  bot's `on_message` handler. It decides which messages matter, what sound is
  scheduled and what push text is built. `Perform` then carries those requests
  out.
- **Connection lifecycle** (`lifecycle.dfy`, module `Lifecycle`). This covers
  `_auto_start_bot`, `_start_bot_async`, `_stop_bot`, `_restart_bot_async`,
  `_set_bot_state`, the client's event reports, and the settings dialog's
  `do_save`.

Some choices follow the code where a reader might expect otherwise:

- A message from a ruled author always schedules `_play_sound`. Mute is checked
  inside `_play_sound`, so a muted message schedules a play that does nothing;
  it does not skip the call.
- `_stop_bot` itself never reports offline, and neither does the rest of the
  restart: the next state it shows is connecting (`RestartSkipsOffline`).
  Closing the client can still make the client's own `on_disconnect` report
  offline in between; that callback is the `Disconnected` event.
- The push sender label is the rule's name first, then the author's display
  name, then "User".
- The location is written "server / #channel", with spaces around the slash.

Several behaviours of the code are kept as they are written:

- `int(v or 100)` turns a stored or typed volume of 0 into 100.
- Loading does not remove duplicate user ids.
- A token that is too short is refused, but the push and tray settings typed
  in the same dialog are already in effect.
- A 200 answer whose body is not JSON counts as a delivered push.

## Model

| member | source | states |
|---|---|---|
| PyText.Trim | src/TalkAlert.py:1296-1299 | `strip()` gives text that neither starts nor ends with whitespace. It is never longer than the input and leaves trimmed text unchanged. It is empty exactly when the input is all whitespace. |
| PyText.TrimIsSlice | src/TalkAlert.py:1296-1299 | What `strip()` keeps is one contiguous slice of the input, and everything cut off on either side is whitespace. |
| PyText.IntTextRoundTrip | src/TalkAlert.py:1627-1634 | A property of Python's `int` and `str`: `int(str(n)) == n` for every integer. |
| RuleTable.Find | src/TalkAlert.py:1280-1284 | Any rule found carries exactly the asked id and is in the table. None is returned exactly when no rule carries the id. With distinct ids, it is the rule carrying that id. |
| RuleTable.ClampVolume | src/TalkAlert.py:1230 | `max(0, min(100, v))`: the result is in 0..100 and equals the input whenever the input is already in range. Below 0 it is 0, above 100 it is 100. |
| RuleTable.FormVolume | src/TalkAlert.py:1311 | The result is in 0..100. A slider value of 0 reads as 100; any other value is clamped. |
| RuleTable.Add | src/TalkAlert.py:1295-1312 | The checks run in the source's order: empty id, duplicate id, then a sound not ending in .wav/.mp3. Each refusal names exactly its reason and leaves the table untouched. On success, exactly the stripped form rule is appended after the old table. Distinct ids stay distinct. |
| RuleTable.Update | src/TalkAlert.py:1324-1363 | Succeeds exactly when: a row is selected; the id is non-empty; the sound is allowed; the id is the selected one or unused; and the selected rule still exists. The first rule with the selected id is rewritten in place, and the rules before it are unchanged. The new id then finds the new rule. With distinct ids the result is a one-position update, and distinctness is kept. |
| RuleTable.Remove | src/TalkAlert.py:1373-1378 | Refuses only when nothing is selected. On success it keeps exactly the rules whose id differs from the selection. An absent id changes nothing. With distinct ids it deletes exactly one position. Distinctness is kept. |
| RuleTable.ActionsKeepIdsDistinct | src/TalkAlert.py:1295-1378 | Any sequence of adds, updates and removes keeps user ids pairwise distinct. |
| RuleOrder.ById | src/TalkAlert.py:1048 | The map sends every key to a rule of the table that carries that key, and every rule's id is a key. |
| RuleOrder.SyncIsPermutation | src/TalkAlert.py:1045-1060 | With distinct ids and a display order without repeats, the sync is a permutation of the table. |
| RuleOrder.SyncFromOrder | src/TalkAlert.py:1045-1060 | The sync lists first the rules named by the display order, in display order. The rules it does not name follow in their table order. |
| RuleOrder.SyncDistinct | src/TalkAlert.py:1045-1060 | The sync keeps user ids distinct. |
| RuleOrder.SyncCurrentOrder | src/TalkAlert.py:1045-1060 | Syncing with the table's own order changes nothing. |
| RuleOrder.SyncFollowsDisplay | src/TalkAlert.py:1045-1060 | When the display lists exactly the table's ids, the table takes the display's order. |
| RuleOrder.SortByName | src/TalkAlert.py:1035 | The result is ascending by folded name and is a permutation of the input. It is stable: rules with equal keys keep their relative order. |
| RuleOrder.Reverse | src/TalkAlert.py:1036-1037 | `list.reverse()`: same length, and position i holds the element from the mirrored position. |
| RuleOrder.DragStarted | src/TalkAlert.py:1146-1147 | Starting a drag switches the sort indicator off and keeps its direction. |
| RuleOrder.ClickNameHeading | src/TalkAlert.py:1025-1043 | The first click sorts ascending, and later clicks flip the direction. The table is permuted. Ascending results keep equal-key rules in their order. Descending results are sorted downward with equal-key runs reversed. |
| Config.VolumeField | src/TalkAlert.py:962 | A missing, null, false or zero volume reads as 100. A non-zero integer reads as itself. A non-empty list or object makes `int()` raise. |
| Config.LoadEntry | src/TalkAlert.py:949-965 | A non-object entry raises. An entry is skipped exactly when its stripped user id is empty. Otherwise the entry raises exactly when `int()` rejects its volume. A loaded rule carries the stripped fields and the clamped volume, and takes the legacy push sound only when its own is empty. |
| Config.LoadEntries | src/TalkAlert.py:947-967 | The list yields None exactly when some entry raises. Otherwise it yields exactly the rules of the entries that load, in list order, all normalised. |
| Config.LoadedRulesComplete | src/TalkAlert.py:947-965 | Every entry that loads contributes its rule, and every rule collected is the rule some entry loads as. |
| Config.CollectAppend | src/TalkAlert.py:947-965 | Collecting keeps list order: the rules of two stretches of entries come out one stretch after the other. |
| Config.RulesOf | src/TalkAlert.py:948 | A list is walked entry by entry. Null, booleans and numbers are not iterable, so they raise. Every rule produced is normalised. |
| Config.SettingsOf | src/TalkAlert.py:934-945 | Each missing key takes its own default: mute, push and the token off or empty, tray-on-minimize, push-when-muted and include-message on. An object with no settings key gives exactly the defaults of `__init__`. A boolean stored under a flag's key is that flag. A string stored under the token or a push credential is that text, stripped. The token and both push credentials always come out stripped. |
| Config.LegacySound | src/TalkAlert.py:943 | The legacy sound is the stored string stripped, and empty when the key is absent. |
| Config.Load | src/TalkAlert.py:928-967 | A missing or unreadable file, or a document that is not an object, gives the defaults and no rules. Otherwise the settings come from the object. A failure in the rule list leaves the settings and an empty list. Every loaded rule is normalised. |
| Config.SaveRules | src/TalkAlert.py:984-993 | One saved object per rule, in table order. |
| Config.Save | src/TalkAlert.py:969-997 | The document has exactly the eight settings keys plus "rules", and as many saved rules as the table has. |
| Config.SavedSettingsFields | src/TalkAlert.py:972-982 | Each setting is written under its own key with its own value. The legacy "pushover_sound" is not written. |
| Config.SavedRuleLoads | src/TalkAlert.py:949-991 | A normalised rule written by the save loads back as itself, except that volume 0 comes back as 100. |
| Config.SavedRulesLoad | src/TalkAlert.py:947-993 | A saved rule list loads back rule by rule in the same order. |
| Config.SaveThenLoad | src/TalkAlert.py:928-997 | For a configuration in loaded shape, loading what was saved gives the same settings and the same rules. The only change is that a zero volume becomes 100. |
| Config.SaveLoadRoundTrip | src/TalkAlert.py:928-997 | The save-then-load law: a configuration in loaded shape with no zero volume reads back exactly. |
| Config.ZeroVolumeReloadsAsFull | src/TalkAlert.py:962 | A rule saved at volume 0 reloads at volume 100. |
| Config.LegacySoundMigrates | src/TalkAlert.py:943-955 | With a legacy global push sound in the file, a rule without its own push sound takes the legacy one. A rule with its own keeps it. |
| Playback.Idle | src/TalkAlert.py:215-218 | At start-up nothing is playing and no rule owns the slot. |
| Playback.Play | src/TalkAlert.py:1432-1454 | Muted: nothing changes. No mixer: an error and nothing changes. The playback error is shown exactly when the file does not load or the mixer does not start it. An unloadable file leaves the mixer stopped with its gain and bookkeeping kept. A loaded file that fails to start leaves the mixer stopped, yet the gain and bookkeeping already name the new rule at the clamped volume. Otherwise the mixer is busy with the rule's sound, at the clamped volume. |
| Playback.Stop | src/TalkAlert.py:1457-1464 | With a mixer, playback stops and no rule owns the slot. Without one, nothing changes. |
| Playback.ToggleMute | src/TalkAlert.py:1408-1416 | The flag flips and nothing else in the configuration changes. Playback is stopped, and the new configuration is what gets saved. |
| Playback.SliderVolume | src/TalkAlert.py:1226-1230 | The label shows a value in 0..100: the slider value when it is in range, and 100 when the slider cannot be read. |
| Playback.SlideVolume | src/TalkAlert.py:1225-1250 | The live gain changes exactly when all hold: the mixer is ready, sound is on, it is busy, and the selected rule owns the sound. Otherwise the player is untouched. |
| Playback.MutedIsSilent | src/TalkAlert.py:1433-1434 | While muted, neither a play nor the slider changes the player. |
| Playback.LatestPlayWins | src/TalkAlert.py:1443-1451 | A successful play leaves the same state whatever play came before, so the slot holds one sound: the latest. |
| Playback.MutingStops | src/TalkAlert.py:1408-1414 | After a mute toggle nothing plays and no rule owns the slot. Toggling twice restores the configuration. |
| Playback.MuteIsPersisted | src/TalkAlert.py:1408-1416 | The saved document reads back with the flipped mute flag. |
| Playback.SliderReachesOnlySelected | src/TalkAlert.py:1246-1249 | If the slider changed the gain, then the selected rule owns the playing sound and sound is on. |
| Pushover.Params | src/TalkAlert.py:1608-1620 | The form always starts with token, user, title and message, in that order. Its length counts the optional url pair and the sound. |
| Pushover.ParamsOptional | src/TalkAlert.py:1614-1620 | The url and its caption are present exactly for a non-empty url. The sound is present exactly when it is named. |
| Pushover.ReadAnswer | src/TalkAlert.py:1632-1640 | A body that is not JSON, or not an object, counts as delivered. For an object whose status converts to an integer, success holds exactly when it is 1. A failure's reason is `str()` of the truthy "errors", else the truthy "error", else the raw body. Success carries an empty reason. |
| Pushover.Request | src/TalkAlert.py:1592-1640 | Blank credentials fail exactly when nothing is posted. Otherwise the stripped credentials are posted. An exception fails with its text. A status other than 200 fails with "HTTP <status>: <body>". A 200 answer is read as `ReadAnswer` reads it, and success needs a 200 answer. |
| Pushover.NonJsonAnswerDelivers | src/TalkAlert.py:1638-1640 | A 200 answer whose body is not JSON reports success. |
| Pushover.RejectionReason | src/TalkAlert.py:1634-1637 | Any status other than 1 is a rejection. Its reason is the truthy "errors" value, else the truthy "error" value, else the raw body. |
| Pushover.MissingStatusRejects | src/TalkAlert.py:1634 | An object without "status" reads as status 0, a rejection. |
| Pushover.AcceptedIffStatusOne | src/TalkAlert.py:1625-1640 | With credentials set, a 200 answer holding an object succeeds exactly when its status converts to 1 or `int()` refuses it. |
| Dispatch.Sender | src/TalkAlert.py:1555 | The label is never empty. It is the rule's name first, then the author's display name, then "User". |
| Dispatch.Location | src/TalkAlert.py:1556-1559 | The location is never empty. It is "server / #channel" when both are known, and "DM" otherwise. |
| Dispatch.MessageText | src/TalkAlert.py:1563-1565 | The text is stripped and never empty. Non-empty clean content wins: its stripped form, or the placeholder when it is blank. Empty clean content falls back to the stripped content, or the placeholder. |
| Dispatch.PushBody | src/TalkAlert.py:1562-1568 | The body starts with "who @ where" and continues with ": text" exactly when the text is included. |
| Dispatch.PushBodyParts | src/TalkAlert.py:1555-1568 | Every push body splits back into its parts: the non-empty sender, " @ ", the non-empty location, and, when the text is included, ": " followed by the non-empty stripped message text. |
| Dispatch.OnMessage | src/TalkAlert.py:1542-1570 | Nothing happens exactly for bot authors and unknown authors. Otherwise the matched rule's sound, volume and id are scheduled. A push is requested exactly when pushing is enabled, both credentials are set, and sound is on or pushing while muted is chosen. It carries the rule's push sound and the message's link. |
| Dispatch.Perform | src/TalkAlert.py:1550-1570 | The scheduled play runs with the mute flag in force at that moment. The push is attempted exactly when requested, with the stored credentials. |
| Dispatch.OnlyRuledAuthorsSound | src/TalkAlert.py:1544-1550 | A message changes the player only when its author is a ruled non-bot, sound is on and the mixer is ready. |
| Dispatch.MutedMessageIsSilent | src/TalkAlert.py:1432-1434 | While muted, no message touches the player, whatever happens to its push. |
| Dispatch.RuledMessagePlays | src/TalkAlert.py:1542-1550 | An unmuted message from a ruled author, with a file that loads and starts, leaves that rule's sound playing at its clamped volume. |
| Dispatch.ExamplePushBody | src/TalkAlert.py:1555-1566 | A nameless rule, author "Alice", channel "general" of server "Guild" and text "hi" give "Alice @ Guild / #general: hi". |
| Dispatch.MutedPushExample | src/TalkAlert.py:1550-1570 | Muted with push-while-muted on: the play is scheduled but silent, and the push goes out with the example body. |
| Lifecycle.DotColour | src/TalkAlert.py:1684-1689 | The dot is green while online or connecting, and red otherwise. |
| Lifecycle.SetBotState | src/TalkAlert.py:1680-1682 | The state and text are recorded, and the worker is not touched. |
| Lifecycle.StartAsync | src/TalkAlert.py:1479-1485 | With a live worker nothing changes. Otherwise the state is connecting and exactly one worker is started. |
| Lifecycle.AutoStart | src/TalkAlert.py:1469-1477 | Without discord.py or without a token, the state is offline with the reason. Otherwise it starts. A worker is spawned exactly when discord.py is present, the token is set and no worker is alive. |
| Lifecycle.Stop | src/TalkAlert.py:1497-1517 | The worker is forgotten, and the displayed state and text are left as they were. |
| Lifecycle.Restart | src/TalkAlert.py:1490-1495 | A restart is a stop followed by the launch-time start. With a token it ends connecting with one new worker. |
| Lifecycle.OnEvent | src/TalkAlert.py:1529-1580 | Ready and resumed show online with the user. A disconnect shows offline. A failed start shows offline with the error and ends the worker. A returning worker is no longer alive. |
| Lifecycle.FormSettings | src/TalkAlert.py:862-870 | The dialog's switches are taken as typed and both push credentials stripped. Mute and token are kept. |
| Lifecycle.DoSave | src/TalkAlert.py:861-896 | Nothing is written exactly for a non-empty stripped token shorter than 20. In that case the dialog stays open and the typed settings are kept. Otherwise the document written is the new configuration. An empty field keeps the old token. A changed token restarts the bot, an unchanged one ensures it runs, and no token stops it and shows offline. |
| Lifecycle.StartIsIdempotent | src/TalkAlert.py:1479-1485 | Starting twice equals starting once, and at most one worker is spawned. |
| Lifecycle.NoTokenNoWorker | src/TalkAlert.py:1473-1475 | Without a token no worker is spawned and the state is offline. |
| Lifecycle.RestartSkipsOffline | src/TalkAlert.py:1490-1517 | The restart's own steps never show offline: stopping an online bot leaves it shown online, and the restart then shows connecting. |
| Lifecycle.ShortTokenKeepsTypedSettings | src/TalkAlert.py:861-877 | A refused short token writes nothing and leaves the connection alone. The typed push and tray settings are in effect anyway. |
| Lifecycle.SavedSettingsReload | src/TalkAlert.py:861-883 | What the dialog saves reads back as exactly the settings now in memory. |

## Left out

- Window, tray icon, drag-hint overlay, fonts, icons and message boxes: these are presentation only. A refused action returns its reason instead of showing a box.
- The audio engine: pygame is reduced to a readiness flag, a busy flag and a gain. Whether a file loads and whether the mixer starts it are inputs (`loads`, `starts`).
- A sound ending by itself: the mixer would go idle with the bookkeeping untouched, since only `_stop_sound` clears it. No event for it is modelled.
- Threads, the `after(0, …)` hand-off to the UI thread, the start lock, the 0.4 s settling delay and the 2.5 s join timeout: the model runs the steps one after another. `Restart` and the offline branch of `DoSave` give the state once the background work has finished.
- The network: `urlopen` is an input (`HttpOutcome`), and so is what `json.loads` made of the body. A `urlopen` that raises `HTTPError` for statuses of 400 and above arrives as `Raised`. `Answered` with any status covers the remaining paths.
- Reading and writing `config.json`: the file text and `json.dumps`/`json.loads` are left out. A load starts from `Source`, and a save produces the `Json` value that would be written.
- Floating-point JSON numbers: `int()` of a float volume or status is not modelled.
- Unicode digits in `int()` are not modelled; only ASCII digits with an optional sign and single underscores are accepted.
- `str()` of a JSON list or object (Python's `repr`) is a caller-supplied function `repr`.
- `str.casefold()` is a caller-supplied function `fold`.
- `str.lower().endswith(...)` is modelled by lower-casing ASCII letters only. This is exact for the suffixes ".wav" and ".mp3".
- The Discord client itself: messages arrive as `Message` values, and the client's callbacks arrive as `Event` values.
- `test_form`, `test_selected`, `do_test_push`, `do_clear`, the exit and cleanup path, and the minimise watchdog: these are not part of this model.
- `IntVar.get()` raising on a non-integer slider is not modelled; the form's volume is an integer. `SliderVolume` keeps the `None` case for the label.
- The `_save_config` and `_refresh_table` calls after an add, update, remove or sort: the model returns the new table, and what would be written is `Config.Save` of it.
- `_load_config` is modelled as it runs at start-up, from the defaults. A later call would start from the values in memory.
- RuleOrder.SyncIsPermutation: requires distinct ids and a display order without repeats. The table's own row ids guarantee both, and the model does not represent the table widget.
