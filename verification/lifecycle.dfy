/**
  The bot connection as the window tracks it: the state shown by the status
  dot and text, whether a worker thread is alive, and how many workers have
  been started. Starting, stopping and restarting run one after another here;
  the lock around the start check and the thread that stops and restarts the
  bot become plain sequencing. The settings dialog's Save button decides what
  happens to the connection.
 */
module Lifecycle {
  import opened Wrappers
  import opened PyText
  import opened RuleTable
  import opened Config

  datatype BotState = Offline | Connecting | Online

  /** The connection bookkeeping: displayed state and text, worker liveness, workers spawned so far. */
  datatype Conn = Conn(state: BotState, status: string, workerAlive: bool, spawned: nat)

  const NotInstalled := "Bot: discord.py が未インストール"
  const NoToken := "Bot: TOKEN未設定（⚙で設定）"
  const ConnectingText := "Bot: connecting..."
  const DisconnectedText := "Bot: disconnected"
  const TokenTooShort := "TOKENが短すぎます。"

  /** The shortest token the settings dialog accepts. */
  const MinTokenLength := 20

  const Green := "#2ecc71"
  const Red := "#e74c3c"

  /** The colour of the status dot: green while online or connecting, red otherwise. */
  function DotColour(state: BotState): (colour: string)
    ensures state != Offline ==> colour == Green
    ensures state == Offline ==> colour == Red
  {
    match state
    case Offline => Red
    case Connecting => Green
    case Online => Green
  }

  /** The state at start-up: offline, no worker. */
  const Initial := Conn(Offline, "", false, 0)

  /** `_set_bot_state`: record the state and show the text; the worker is not touched. */
  function SetBotState(c: Conn, state: BotState, text: string): (r: Conn)
    ensures r.state == state && r.status == text
    ensures r.workerAlive == c.workerAlive && r.spawned == c.spawned
  {
    c.(state := state, status := text)
  }

  /**
    `_start_bot_async`: while a worker is alive nothing happens; otherwise the
    state becomes connecting and exactly one worker is started.
   */
  function StartAsync(c: Conn): (r: Conn)
    ensures c.workerAlive ==> r == c
    ensures !c.workerAlive ==> r.state == Connecting && r.status == ConnectingText
    ensures !c.workerAlive ==> r.workerAlive && r.spawned == c.spawned + 1
    ensures r.workerAlive
  {
    if c.workerAlive then c
    else SetBotState(c, Connecting, ConnectingText).(workerAlive := true, spawned := c.spawned + 1)
  }

  /**
    `_auto_start_bot`: without the discord library, or without a token, the
    bot stays offline with a message saying why; otherwise it is started.
   */
  function AutoStart(c: Conn, hasDiscord: bool, token: string): (r: Conn)
    ensures !hasDiscord ==> r == SetBotState(c, Offline, NotInstalled)
    ensures hasDiscord && token == [] ==> r == SetBotState(c, Offline, NoToken)
    ensures hasDiscord && token != [] ==> r == StartAsync(c)
    ensures r.spawned <= c.spawned + 1
    ensures r.spawned == c.spawned + 1 <==> hasDiscord && token != [] && !c.workerAlive
  {
    if !hasDiscord then SetBotState(c, Offline, NotInstalled)
    else if token == [] then SetBotState(c, Offline, NoToken)
    else StartAsync(c)
  }

  /**
    `_stop_bot`: close the client, wait a bounded time for the worker and then
    forget it. The displayed state is left as it was.
   */
  function Stop(c: Conn): (r: Conn)
    ensures !r.workerAlive
    ensures r.state == c.state && r.status == c.status && r.spawned == c.spawned
  {
    c.(workerAlive := false)
  }

  /** `_restart_bot_async`: stop, then start again as at launch. */
  function Restart(c: Conn, hasDiscord: bool, token: string): (r: Conn)
    ensures r == AutoStart(Stop(c), hasDiscord, token)
    ensures hasDiscord && token != [] ==> r.state == Connecting && r.workerAlive && r.spawned == c.spawned + 1
  {
    AutoStart(Stop(c), hasDiscord, token)
  }

  /** What the client reports from the worker thread, delivered on the UI thread. */
  datatype Event =
    | Ready(user: string)
    | Resumed(user: string)
    | Disconnected
    | StartFailed(error: string)
    | WorkerExited

  /**
    The worker's reports: ready and resumed show online with the bot's user
    name, a disconnect shows offline, a failed start shows offline with the
    error and ends the worker, and a worker that returns is no longer alive.
   */
  function OnEvent(c: Conn, ev: Event): (r: Conn)
    ensures ev.Ready? || ev.Resumed? ==> r.state == Online && r.status == "Bot: online (" + ev.user + ")"
    ensures ev.Disconnected? ==> r.state == Offline && r.status == DisconnectedText
    ensures ev.StartFailed? ==> r.state == Offline && r.status == "Bot: start failed (" + ev.error + ")" && !r.workerAlive
    ensures ev.WorkerExited? ==> r == c.(workerAlive := false)
    ensures r.spawned == c.spawned
    ensures !ev.StartFailed? && !ev.WorkerExited? ==> r.workerAlive == c.workerAlive
  {
    match ev
    case Ready(user) => SetBotState(c, Online, "Bot: online (" + user + ")")
    case Resumed(user) => SetBotState(c, Online, "Bot: online (" + user + ")")
    case Disconnected => SetBotState(c, Offline, DisconnectedText)
    case StartFailed(e) => SetBotState(c, Offline, "Bot: start failed (" + e + ")").(workerAlive := false)
    case WorkerExited => c.(workerAlive := false)
  }

  /** The fields of the settings dialog as typed. */
  datatype SaveForm = SaveForm(
    token: string,
    trayOnMinimize: bool,
    pushEnabled: bool,
    pushWhenMuted: bool,
    pushIncludeMessage: bool,
    pushUserKey: string,
    pushAppToken: string
  )

  /**
    The outcome of pressing Save: the configuration in memory, the connection,
    the document written (if any), the message shown in the dialog (if any) and
    whether the dialog closed.
   */
  datatype Saved = Saved(config: Config, conn: Conn, written: Option<Json>, notice: Option<string>, closed: bool)

  /** The dialog's values other than the token, stripped where the dialog strips them. */
  function FormSettings(s: Settings, f: SaveForm): (r: Settings)
    ensures r.muted == s.muted && r.token == s.token
    ensures r.trayOnMinimize == f.trayOnMinimize && r.pushEnabled == f.pushEnabled
    ensures r.pushWhenMuted == f.pushWhenMuted && r.pushIncludeMessage == f.pushIncludeMessage
    ensures r.pushUserKey == Trim(f.pushUserKey) && r.pushAppToken == Trim(f.pushAppToken)
  {
    s.(trayOnMinimize := f.trayOnMinimize, pushEnabled := f.pushEnabled, pushWhenMuted := f.pushWhenMuted,
       pushIncludeMessage := f.pushIncludeMessage, pushUserKey := Trim(f.pushUserKey), pushAppToken := Trim(f.pushAppToken))
  }

  /**
    `do_save`. The tray and push settings are taken from the dialog first. A
    non-empty token shorter than 20 characters is then refused: nothing is
    written and the dialog stays open, but the settings already taken stay in
    memory. An empty token field keeps the stored token. Otherwise the
    configuration is written and the connection follows the token: restarted
    if it changed, started if needed if it did not, stopped and shown offline
    if there is none.
   */
  function DoSave(c: Config, conn: Conn, f: SaveForm, hasDiscord: bool): (r: Saved)
    ensures var tok := Trim(f.token);
            tok != [] && |tok| < MinTokenLength <==> r.written.None?
    ensures r.written.None? ==>
              r == Saved(c.(settings := FormSettings(c.settings, f)), conn, None, Some(TokenTooShort), false)
    ensures r.written.Some? ==> r.written.value == Save(r.config) && r.closed && r.notice.None?
    ensures r.written.Some? ==> r.config.rules == c.rules
    ensures r.written.Some? && Trim(f.token) == [] ==> r.config.settings.token == c.settings.token
    ensures r.written.Some? && Trim(f.token) != [] ==> r.config.settings.token == Trim(f.token)
    ensures r.written.Some? ==> r.config.settings == FormSettings(c.settings, f).(token := r.config.settings.token)
    ensures r.written.Some? && Trim(f.token) != [] && Trim(f.token) != c.settings.token ==>
              r.conn == Restart(conn, hasDiscord, Trim(f.token))
    ensures r.written.Some? && r.config.settings.token == c.settings.token && c.settings.token != [] ==>
              r.conn == AutoStart(conn, hasDiscord, c.settings.token)
    ensures r.written.Some? && r.config.settings.token == [] ==>
              r.conn == SetBotState(Stop(conn), Offline, NoToken)
  {
    var tok := Trim(f.token);
    var settings := FormSettings(c.settings, f);
    if tok != [] && |tok| < MinTokenLength then
      Saved(c.(settings := settings), conn, None, Some(TokenTooShort), false)
    else
      var changed := tok != [] && tok != c.settings.token;
      var token := if tok != [] then tok else c.settings.token;
      var c' := c.(settings := settings.(token := token));
      var conn' :=
        if token != [] then
          if changed then Restart(conn, hasDiscord, token) else AutoStart(conn, hasDiscord, token)
        else SetBotState(Stop(conn), Offline, NoToken);
      Saved(c', conn', Some(Save(c')), None, true)
  }

  /** Starting twice is starting once: the second start finds the first worker alive. */
  lemma StartIsIdempotent(c: Conn, hasDiscord: bool, token: string)
    ensures StartAsync(StartAsync(c)) == StartAsync(c)
    ensures AutoStart(AutoStart(c, hasDiscord, token), hasDiscord, token).spawned <= c.spawned + 1
  {
  }

  /** Without a token no worker is ever started, and the bot shows offline. */
  lemma NoTokenNoWorker(c: Conn, hasDiscord: bool)
    ensures var r := AutoStart(c, hasDiscord, []);
            r.state == Offline && r.spawned == c.spawned && r.workerAlive == c.workerAlive
  {
  }

  /**
    The restart's own steps never report offline: stopping leaves the shown
    state as it was, and the start that follows shows connecting. Closing the
    client can still make it report a disconnect of its own (`Disconnected`).
   */
  lemma RestartSkipsOffline(c: Conn, token: string)
    requires c.state == Online && token != []
    ensures Stop(c).state == Online
    ensures Restart(c, true, token).state == Connecting
  {
  }

  /**
    A refused short token leaves nothing written and the connection alone, yet
    the push and tray settings typed in the dialog are already in effect.
   */
  lemma ShortTokenKeepsTypedSettings(c: Config, conn: Conn, f: SaveForm, hasDiscord: bool)
    requires Trim(f.token) != [] && |Trim(f.token)| < MinTokenLength
    ensures var r := DoSave(c, conn, f, hasDiscord);
            && r.written.None? && r.conn == conn && !r.closed
            && r.config.settings.pushEnabled == f.pushEnabled
            && r.config.settings.pushAppToken == Trim(f.pushAppToken)
            && r.config.settings.token == c.settings.token
  {
  }

  /**
    What Save writes reads back with the token it decided on and the dialog's
    push settings, provided the stored state was in the shape a load produces.
   */
  lemma SavedSettingsReload(c: Config, conn: Conn, f: SaveForm, hasDiscord: bool, repr: Json -> string)
    requires IsTrimmed(c.settings.token)
    requires forall i :: 0 <= i < |c.rules| ==> Normalised(c.rules[i])
    requires Trim(f.token) == [] || |Trim(f.token)| >= MinTokenLength
    ensures var r := DoSave(c, conn, f, hasDiscord);
            Load(Parsed(r.written.value), repr).settings == r.config.settings
  {
    var r := DoSave(c, conn, f, hasDiscord);
    assert r.written.Some?;
    SaveThenLoad(r.config, repr);
  }
}
