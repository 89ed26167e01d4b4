/**
  The body of the bot's `on_message` handler: which messages matter, the
  sound it schedules on the UI thread and the push it sends. The handler's
  side effects are returned as requests; `Perform` carries them out against
  the playback slot and the push service.
 */
module Dispatch {
  import opened Wrappers
  import opened PyText
  import opened RuleTable
  import opened Config
  import opened Playback
  import opened Pushover

  /** The application name, used as the push title (`APP_NAME`). */
  const AppName := "TalkAlert"

  /** What stands in for a message with no text. */
  const NoText := "(textなし)"

  /** The sender label when neither the rule nor the author has a name. */
  const AnonymousSender := "User"

  /**
    An incoming message as the handler reads it. `displayName` is "" when the
    author has none; `guildName` and `channelName` are `None` outside a server
    channel; `jumpUrl` is `None` when the message carries no link.
   */
  datatype Message = Message(
    authorIsBot: bool,
    authorId: string,
    displayName: string,
    guildName: Option<string>,
    channelName: Option<string>,
    cleanContent: string,
    content: string,
    jumpUrl: Option<string>
  )

  /** `_play_sound(path, volume, rule_id=...)`, as scheduled through the UI thread. */
  datatype PlayRequest = PlayRequest(path: string, volume: int, ruleId: string)

  /** `_pushover_send_async(title, message, url=..., sound=...)`. */
  datatype PushRequest = PushRequest(title: string, body: string, url: Option<string>, sound: string)

  datatype Effects = Effects(play: Option<PlayRequest>, push: Option<PushRequest>)

  const NoEffects := Effects(None, None)

  /** A push is attempted: enabled, both credentials set, and not muted unless pushing while muted. */
  predicate PushAllowed(s: Settings) {
    s.pushEnabled && s.pushAppToken != [] && s.pushUserKey != [] && (!s.muted || s.pushWhenMuted)
  }

  /** The sender label: the rule's name, else the author's display name, else "User". */
  function Sender(r: Rule, m: Message): (who: string)
    ensures who != []
    ensures r.name != [] ==> who == r.name
    ensures r.name == [] && m.displayName != [] ==> who == m.displayName
    ensures r.name == [] && m.displayName == [] ==> who == AnonymousSender
  {
    if r.name != [] then r.name
    else if m.displayName != [] then m.displayName
    else AnonymousSender
  }

  /** "DM", or "<server> / #<channel>" when the message has both. */
  function Location(m: Message): (where: string)
    ensures where != []
    ensures m.guildName.None? || m.channelName.None? ==> where == "DM"
    ensures m.guildName.Some? && m.channelName.Some? ==> where == m.guildName.value + " / #" + m.channelName.value
  {
    if m.guildName.Some? && m.channelName.Some? then m.guildName.value + " / #" + m.channelName.value
    else "DM"
  }

  /** The stripped message text, the clean content preferred, or the placeholder when it is empty. */
  function MessageText(m: Message): (text: string)
    ensures text != [] && IsTrimmed(text)
    ensures m.cleanContent != [] && Trim(m.cleanContent) != [] ==> text == Trim(m.cleanContent)
    ensures m.cleanContent != [] && Trim(m.cleanContent) == [] ==> text == NoText
    ensures m.cleanContent == [] ==> text == if Trim(m.content) == [] then NoText else Trim(m.content)
  {
    var t := Trim(if m.cleanContent != [] then m.cleanContent else m.content);
    if t == [] then NoText else t
  }

  /** The push body: "who @ where", followed by ": text" when the text is included. */
  function PushBody(includeMessage: bool, r: Rule, m: Message): (body: string)
    ensures var head := Sender(r, m) + " @ " + Location(m);
            && |head| <= |body|
            && body[..|head|] == head
            && (includeMessage ==> body == head + ": " + MessageText(m))
            && (!includeMessage ==> body == head)
  {
    var head := Sender(r, m) + " @ " + Location(m);
    if includeMessage then
      var body := head + ": " + MessageText(m);
      assert body[..|head|] == head;
      body
    else head
  }

  /**
    The `on_message` decision. Messages from bots and from authors without a
    rule are ignored. Otherwise the rule's sound is always scheduled (muting
    is checked when it plays), and a push is sent when `PushAllowed` holds,
    with the rule's own push sound and the message's link.
   */
  function OnMessage(rules: seq<Rule>, s: Settings, m: Message): (e: Effects)
    ensures e == NoEffects <==> m.authorIsBot || !HasId(rules, m.authorId)
    ensures e.play.Some? <==> e != NoEffects
    ensures e.play.Some? ==>
              var r := Find(rules, m.authorId).value;
              e.play.value == PlayRequest(r.soundPath, r.volume, r.userId) && r.userId == m.authorId
    ensures e.push.Some? <==> e.play.Some? && PushAllowed(s)
    ensures e.push.Some? ==>
              var r := Find(rules, m.authorId).value;
              e.push.value == PushRequest(AppName, PushBody(s.pushIncludeMessage, r, m), m.jumpUrl, r.pushSound)
  {
    if m.authorIsBot then NoEffects
    else
      match Find(rules, m.authorId)
      case None => NoEffects
      case Some(r) =>
        var play := PlayRequest(r.soundPath, r.volume, r.userId);
        var push := if PushAllowed(s) then Some(PushRequest(AppName, PushBody(s.pushIncludeMessage, r, m), m.jumpUrl, r.pushSound)) else None;
        Effects(Some(play), push)
  }

  /** The outcome of carrying out a message's effects. */
  datatype Performed = Performed(player: Player, playError: Option<PlayError>, delivery: Option<Delivery>)

  /**
    Carrying the effects out: the sound plays with the mute flag as it is when
    the UI thread gets to it (`loads` and `starts` say whether the mixer could
    load the file and start it), and the push goes out with the stored credentials and answer `outcome`.
   */
  function Perform(e: Effects, s: Settings, p: Player, loads: bool, starts: bool, outcome: HttpOutcome, repr: Json -> string): (r: Performed)
    ensures e.play.None? ==> r.player == p && r.playError.None?
    ensures e.play.Some? ==>
              var q := e.play.value;
              Played(r.player, r.playError) == Play(p, s.muted, q.volume, Some(q.ruleId), loads, starts)
    ensures r.delivery.Some? <==> e.push.Some?
    ensures e.push.Some? ==>
              var q := e.push.value;
              r.delivery.value ==
                Request(s.pushAppToken, s.pushUserKey, q.title, q.body, q.url, DefaultUrlTitle, q.sound, outcome, repr)
  {
    var played := if e.play.Some? then Play(p, s.muted, e.play.value.volume, Some(e.play.value.ruleId), loads, starts) else Played(p, None);
    var delivery :=
      if e.push.Some? then
        var q := e.push.value;
        Some(Request(s.pushAppToken, s.pushUserKey, q.title, q.body, q.url, DefaultUrlTitle, q.sound, outcome, repr))
      else None;
    Performed(played.player, played.error, delivery)
  }

  /** A message changes the playback slot only if its author has a rule, is not a bot, and sound is on. */
  lemma OnlyRuledAuthorsSound(rules: seq<Rule>, s: Settings, m: Message, p: Player, loads: bool, starts: bool, outcome: HttpOutcome, repr: Json -> string)
    requires Perform(OnMessage(rules, s, m), s, p, loads, starts, outcome, repr).player != p
    ensures !m.authorIsBot && HasId(rules, m.authorId) && !s.muted && p.audioReady
  {
  }

  /** While muted, a message never touches the playback slot, whatever happens to its push. */
  lemma MutedMessageIsSilent(rules: seq<Rule>, s: Settings, m: Message, p: Player, loads: bool, starts: bool, outcome: HttpOutcome, repr: Json -> string)
    requires s.muted
    ensures var r := Perform(OnMessage(rules, s, m), s, p, loads, starts, outcome, repr);
            r.player == p && r.playError.None?
  {
  }

  /**
    An unmuted message from a ruled author, with the mixer ready and the file
    loadable and playable, leaves the slot playing that rule's sound at its clamped volume.
   */
  lemma RuledMessagePlays(rules: seq<Rule>, s: Settings, m: Message, p: Player, outcome: HttpOutcome, repr: Json -> string)
    requires !m.authorIsBot && HasId(rules, m.authorId) && !s.muted && p.audioReady
    ensures var r := Perform(OnMessage(rules, s, m), s, p, true, true, outcome, repr);
            && r.playError.None?
            && r.player.busy
            && r.player.nowPlaying == Some(m.authorId)
            && r.player.nowPlayingVolume == ClampVolume(Find(rules, m.authorId).value.volume)
  {
  }

  /**
    Every push body reads back into its parts: it opens with the non-empty
    sender and location joined by " @ ", and when the text is included, what
    follows ": " is the message text, never empty and already stripped.
   */
  lemma PushBodyParts(includeMessage: bool, r: Rule, m: Message)
    ensures var body := PushBody(includeMessage, r, m);
            var head := Sender(r, m) + " @ " + Location(m);
            && body[..|Sender(r, m)|] == Sender(r, m) && Sender(r, m) != []
            && body[|Sender(r, m)|..|Sender(r, m)| + 3] == " @ "
            && (!includeMessage ==> body[|Sender(r, m)| + 3..] == Location(m) && Location(m) != [])
            && (includeMessage ==>
                  && |body| > |head| + 2
                  && body[|head|..|head| + 2] == ": "
                  && body[|head| + 2..] == MessageText(m)
                  && IsTrimmed(body[|head| + 2..]))
  {
    var who := Sender(r, m);
    var head := who + " @ " + Location(m);
    var body := PushBody(includeMessage, r, m);
    assert body[..|head|] == head;
    assert head[..|who|] == who && head[|who|..|who| + 3] == " @ ";
    if includeMessage {
      assert body == head + ": " + MessageText(m);
      assert body[|head|..|head| + 2] == ": ";
      assert body[|head| + 2..] == MessageText(m);
    } else {
      assert head[|who| + 3..] == Location(m);
    }
  }

  /**
    The push body for a nameless rule and a message from "Alice" in channel
    "general" of server "Guild" saying "hi": the display name stands in for the
    rule's name and the text follows the location.
   */
  lemma ExamplePushBody()
    ensures PushBody(true, Rule("", "123", "ding.wav", 80, ""),
                     Message(false, "123", "Alice", Some("Guild"), Some("general"), "hi", "hi", None))
            == "Alice @ Guild / #general: hi"
  {
    var rule := Rule("", "123", "ding.wav", 80, "");
    var m := Message(false, "123", "Alice", Some("Guild"), Some("general"), "hi", "hi", None);
    var head := Sender(rule, m) + " @ " + Location(m);
    assert head == "Alice @ Guild / #general" by {
      assert Sender(rule, m) == "Alice";
      assert Location(m) == "Guild / #general";
    }
    assert MessageText(m) == "hi" by {
      assert IsTrimmed("hi");
    }
    assert PushBody(true, rule, m) == head + ": " + "hi";
  }

  /**
    A ruled author muted with push-when-muted on: no sound plays, yet the push
    goes out with the example body above.
   */
  lemma MutedPushExample(p: Player)
    ensures var rule := Rule("", "123", "ding.wav", 80, "");
            var s := Defaults.(muted := true, pushEnabled := true, pushUserKey := "u", pushAppToken := "t");
            var m := Message(false, "123", "Alice", Some("Guild"), Some("general"), "hi", "hi", None);
            var e := OnMessage([rule], s, m);
            && e.play == Some(PlayRequest("ding.wav", 80, "123"))
            && e.push == Some(PushRequest("TalkAlert", "Alice @ Guild / #general: hi", None, ""))
            && Perform(e, s, p, true, true, Raised(""), _ => "").player == p
  {
    var rule := Rule("", "123", "ding.wav", 80, "");
    var s := Defaults.(muted := true, pushEnabled := true, pushUserKey := "u", pushAppToken := "t");
    assert Find([rule], "123") == Some(rule);
    ExamplePushBody();
    assert PushAllowed(s);
  }
}
