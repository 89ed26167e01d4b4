/**
  The playback slot: one sound at a time, remembered together with the rule
  that asked for it so that the volume slider only reaches the sound of the
  selected rule. The pygame mixer is reduced to a readiness flag, a busy flag
  and an integer gain in percent.
 */
module Playback {
  import opened Wrappers
  import opened PyText
  import opened RuleTable
  import opened Config

  /**
    The mixer as the application sees it. `nowPlaying` and `nowPlayingVolume`
    are the application's own bookkeeping; `busy` and `gain` are what the mixer
    reports and plays at.
   */
  datatype Player = Player(
    audioReady: bool,
    busy: bool,
    gain: int,
    nowPlaying: Option<string>,
    nowPlayingVolume: int
  )

  /** The state at start-up, once `_init_audio` has found the mixer usable or not. */
  function Idle(audioReady: bool): (p: Player)
    ensures p.audioReady == audioReady && !p.busy && p.nowPlaying == None
  {
    Player(audioReady, false, 100, None, 100)
  }

  /** The two error dialogs playback can raise. */
  datatype PlayError = AudioUnavailable | CannotPlay

  datatype Played = Played(player: Player, error: Option<PlayError>)

  /**
    `_play_sound`. While muted nothing happens. Without a mixer an error is
    shown and nothing changes. Otherwise the current sound is stopped first.
    If the file then fails to load (`loads` is false) the error is shown and
    the bookkeeping is left as it was. Once loaded, the gain is set and the
    sound is recorded as the rule's; if the mixer then refuses to start it
    (`starts` is false) the error is shown with that bookkeeping already
    updated, else the sound plays at the clamped volume.
   */
  function Play(p: Player, muted: bool, volume: int, ruleId: Option<string>, loads: bool, starts: bool): (r: Played)
    ensures muted ==> r == Played(p, None)
    ensures !muted && !p.audioReady ==> r == Played(p, Some(AudioUnavailable))
    ensures r.player.audioReady == p.audioReady
    ensures r.error.None? && !muted ==> r.player.busy && r.player.nowPlaying == ruleId
    ensures r.error.None? && !muted ==> r.player.gain == r.player.nowPlayingVolume == ClampVolume(volume)
    ensures r.error == Some(CannotPlay) <==> !muted && p.audioReady && !(loads && starts)
    ensures r.error == Some(CannotPlay) ==> !r.player.busy
    ensures r.error == Some(CannotPlay) && !loads ==>
              && r.player.nowPlaying == p.nowPlaying
              && r.player.nowPlayingVolume == p.nowPlayingVolume
              && r.player.gain == p.gain
    ensures r.error == Some(CannotPlay) && loads ==>
              r.player.nowPlaying == ruleId && r.player.gain == r.player.nowPlayingVolume == ClampVolume(volume)
  {
    if muted then Played(p, None)
    else if !p.audioReady then Played(p, Some(AudioUnavailable))
    else
      var stopped := p.(busy := false);
      if !loads then Played(stopped, Some(CannotPlay))
      else
        var v := ClampVolume(volume);
        var prepared := stopped.(gain := v, nowPlaying := ruleId, nowPlayingVolume := v);
        if !starts then Played(prepared, Some(CannotPlay))
        else Played(prepared.(busy := true), None)
  }

  /** `_stop_sound`: with a mixer, silence it and forget whose sound it was. */
  function Stop(p: Player): (r: Player)
    ensures p.audioReady ==> !r.busy && r.nowPlaying == None
    ensures !p.audioReady ==> r == p
    ensures r.gain == p.gain && r.nowPlayingVolume == p.nowPlayingVolume && r.audioReady == p.audioReady
  {
    if !p.audioReady then p
    else p.(busy := false, nowPlaying := None)
  }

  /**
    `toggle_mute`: flip the flag, stop whatever is playing and persist the
    configuration; the saved document is returned beside the new state.
   */
  function ToggleMute(c: Config, p: Player): (r: (Config, Player, Json))
    ensures r.0.settings.muted == !c.settings.muted
    ensures r.0 == c.(settings := c.settings.(muted := !c.settings.muted))
    ensures r.1 == Stop(p)
    ensures r.2 == Save(r.0)
  {
    var c' := c.(settings := c.settings.(muted := !c.settings.muted));
    (c', Stop(p), Save(c'))
  }

  /** The percentage the volume label shows: the slider's value, or 100 if it cannot be read, clamped. */
  function SliderVolume(raw: Option<int>): (v: int)
    ensures 0 <= v <= 100
    ensures raw.None? ==> v == 100
    ensures raw.Some? && 0 <= raw.value <= 100 ==> v == raw.value
  {
    ClampVolume(raw.GetOr(100))
  }

  /** The sound may follow the slider: mixer ready, not muted, busy, and owned by the selected rule. */
  predicate FollowsSlider(p: Player, muted: bool, selection: Option<string>) {
    p.audioReady && !muted && p.busy && Selected(selection) && p.nowPlaying == selection
  }

  /**
    `_update_volume_label`: the label always shows the slider's value, and the
    gain of the running sound changes only when that sound belongs to the
    selected rule.
   */
  function SlideVolume(p: Player, muted: bool, raw: Option<int>, selection: Option<string>): (r: (int, Player))
    ensures r.0 == SliderVolume(raw)
    ensures FollowsSlider(p, muted, selection) ==> r.1 == p.(gain := r.0, nowPlayingVolume := r.0)
    ensures !FollowsSlider(p, muted, selection) ==> r.1 == p
  {
    var v := SliderVolume(raw);
    if FollowsSlider(p, muted, selection) then (v, p.(gain := v, nowPlayingVolume := v)) else (v, p)
  }

  /** While muted, nothing can start a sound or change the playing one. */
  lemma MutedIsSilent(p: Player, volume: int, ruleId: Option<string>, loads: bool, starts: bool,
                      raw: Option<int>, selection: Option<string>)
    ensures Play(p, true, volume, ruleId, loads, starts).player == p
    ensures SlideVolume(p, true, raw, selection).1 == p
  {
  }

  /**
    Playing supersedes: a second successful play leaves the same state whatever
    the first one did, so the slot only ever remembers the latest request.
   */
  lemma LatestPlayWins(p: Player, v1: int, id1: Option<string>, loads1: bool, starts1: bool, v2: int, id2: Option<string>)
    ensures var first := Play(p, false, v1, id1, loads1, starts1).player;
            Play(first, false, v2, id2, true, true).player == Play(p, false, v2, id2, true, true).player
  {
  }

  /** After muting, nothing is playing and the slot belongs to no rule, once a mixer is present. */
  lemma MutingStops(c: Config, p: Player)
    requires p.audioReady
    ensures var r := ToggleMute(c, p);
            !r.1.busy && r.1.nowPlaying == None
    ensures ToggleMute(ToggleMute(c, p).0, p).0 == c
  {
  }

  /** The flipped mute flag is what the written configuration reads back, for a configuration in loaded shape. */
  lemma MuteIsPersisted(c: Config, p: Player, repr: Json -> string)
    requires IsTrimmed(c.settings.token) && IsTrimmed(c.settings.pushUserKey) && IsTrimmed(c.settings.pushAppToken)
    requires forall i :: 0 <= i < |c.rules| ==> Normalised(c.rules[i])
    ensures Load(Parsed(ToggleMute(c, p).2), repr).settings.muted == !c.settings.muted
  {
    SaveThenLoad(ToggleMute(c, p).0, repr);
  }

  /** Only the sound of the selected rule follows the slider; any other playing sound keeps its gain. */
  lemma SliderReachesOnlySelected(p: Player, muted: bool, raw: Option<int>, selection: Option<string>)
    requires SlideVolume(p, muted, raw, selection).1.gain != p.gain
    ensures p.nowPlaying == selection && selection.Some? && selection.value != []
    ensures !muted && p.busy
  {
  }
}
