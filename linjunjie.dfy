/** `ModernAudioPlayer` (Music_player/linjunjie_player/script.js). Unlike the
    other players it keeps no guard on the current index: `loadTrack` on a
    non-empty playlist takes any index, removal may leave the index at -1,
    and an index outside the playlist makes `loadTrack` throw once it has
    set it. `isPlaying` follows the element's play and pause events only. */
module Linjunjie {
  import opened Policy
  import opened Catalog
  import opened Transport
  import opened Sessions
  import Text

  const DefaultVolume: real := 0.5

  /** The record `createTrackFromFile` resolves with: the probed duration as
      reported (NaN stays NaN), 0 when the probe failed. */
  function TrackOf(f: SourceFile): (r: Track)
    ensures r.title == Text.StripExtension(f.name) && r.artist == "Lin Junjie"
    ensures r.duration == f.probed && r.src == f.url
    ensures r.playCount == 0 && !r.isFavorite
  {
    Track("", Text.StripExtension(f.name), "Lin Junjie", f.probed, f.url, "", 0, false, 0)
  }

  /** `handleFileSelection`: the audio files' tracks are appended and nothing
      is loaded. */
  function Imported(s: Session, files: seq<SourceFile>): (r: Session)
    ensures r.playlist == s.playlist + TracksOf(AudioOnly(files), TrackOf)
    ensures r.(playlist := s.playlist) == s
  {
    s.(playlist := s.playlist + TracksOf(AudioOnly(files), TrackOf))
  }

  /** `loadTrack(index)` throws when the playlist is not empty and has no
      track at `index` (`track.src` of `undefined`). */
  predicate LoadThrows(s: Session, index: int)
    ensures LoadThrows(s, index) ==> index < 0 || index >= |s.playlist| > 0
    ensures !LoadThrows(s, index) && s.playlist != [] ==> 0 <= index < |s.playlist|
  {
    s.playlist != [] && !(0 <= index < |s.playlist|)
  }

  /** `loadTrack(index)`: an empty playlist unloads the element and keeps the
      index; otherwise the index is taken as given, and the track at it, if
      any, is sent to the element. */
  function Loaded(s: Session, index: int): (r: Session)
    ensures s.playlist == [] ==> r == Issue(s, [Unload])
    ensures s.playlist != [] ==> r.currentIndex == index
    ensures 0 <= index < |s.playlist| ==> r.issued == s.issued + [Load(s.playlist[index].src)]
    ensures LoadThrows(s, index) ==> r.issued == s.issued
    ensures r.playlist == s.playlist && r.isPlaying == s.isPlaying && r.settings == s.settings
  {
    if s.playlist == [] then Issue(s, [Unload])
    else if 0 <= index < |s.playlist| then Issue(s, [Load(s.playlist[index].src)]).(currentIndex := index)
    else s.(currentIndex := index)
  }

  /** The tail of `previousTrack` and `nextTrack`: load, then play again if
      playing; a throwing load skips the rest. */
  function Stepped(s: Session, index: int): (r: Session)
    requires s.playlist != []
    ensures r.currentIndex == index
    ensures LoadThrows(s, index) ==> r.issued == s.issued
    ensures !LoadThrows(s, index) ==>
      r.issued == s.issued + [Load(s.playlist[index].src)] + (if s.isPlaying then [Play] else [])
    ensures r.playlist == s.playlist && r.isPlaying == s.isPlaying && r.settings == s.settings
  {
    var t := Loaded(s, index);
    if LoadThrows(s, index) then t else ResumeIfPlaying(t)
  }

  /** `previousTrack`: the last index from 0, otherwise one less. */
  function Previous(s: Session): (r: Session)
    ensures s.playlist == [] ==> r == s
    ensures s.playlist != [] && 0 <= s.currentIndex < |s.playlist| ==>
      var n := |s.playlist|;
      r.currentIndex == (s.currentIndex - 1 + n) % n
    ensures s.playlist != [] && s.currentIndex < 0 ==>
      r.currentIndex == s.currentIndex - 1 && r.issued == s.issued
    ensures r.playlist == s.playlist && r.isPlaying == s.isPlaying && r.settings == s.settings
  {
    if s.playlist == [] then s
    else Stepped(s, PrevFromZero(s.currentIndex, |s.playlist|))
  }

  /** `nextTrack`: a uniform pick under shuffle, otherwise
      `(currentIndex + 1) % length` with JavaScript's remainder. */
  function Next(s: Session, draw: real): (r: Session)
    requires 0.0 <= draw < 1.0
    ensures s.playlist == [] ==> r == s
    ensures s.playlist != [] && s.settings.isShuffled ==>
      r.currentIndex == RandomIndex(draw, |s.playlist|)
    ensures s.playlist != [] && !s.settings.isShuffled ==>
      r.currentIndex == JsRem(s.currentIndex + 1, |s.playlist|)
    ensures r.playlist == s.playlist && r.isPlaying == s.isPlaying && r.settings == s.settings
  {
    if s.playlist == [] then s
    else
      var n := |s.playlist|;
      Stepped(s, if s.settings.isShuffled then RandomIndex(draw, n) else JsRem(s.currentIndex + 1, n))
  }

  /** From an index inside a non-empty playlist, or from -1, both steps land
      inside it and load that track. */
  lemma StepsStayInside(s: Session, draw: real)
    requires s.playlist != [] && -1 <= s.currentIndex < |s.playlist| && 0.0 <= draw < 1.0
    ensures var r := Next(s, draw);
      0 <= r.currentIndex < |s.playlist| &&
      r.issued[..|s.issued| + 1] == s.issued + [Load(s.playlist[r.currentIndex].src)]
    ensures s.currentIndex >= 0 ==>
      var r := Previous(s);
      0 <= r.currentIndex < |s.playlist| &&
      r.issued[..|s.issued| + 1] == s.issued + [Load(s.playlist[r.currentIndex].src)]
    ensures s.currentIndex == -1 && !s.settings.isShuffled ==> Next(s, draw).currentIndex == 0
  {
    var r := Next(s, draw);
    assert r.issued[..|s.issued| + 1] == s.issued + [Load(s.playlist[r.currentIndex].src)];
    if s.currentIndex >= 0 {
      var q := Previous(s);
      assert q.issued[..|s.issued| + 1] == s.issued + [Load(s.playlist[q.currentIndex].src)];
    }
  }

  /** Below 0, `previousTrack` only moves the index further down and loads
      nothing, since the load throws. */
  lemma PreviousFromNegativeDrifts(s: Session)
    requires s.playlist != [] && s.currentIndex < 0
    ensures Previous(s) == s.(currentIndex := s.currentIndex - 1)
  {
  }

  /** `removeTrack(index)`: `splice(index, 1)` with no range check; removing
      the current index moves it to `min(currentIndex, length - 1)` and loads
      there, an earlier index moves it down by one. */
  function Removed(s: Session, index: int): (r: Session)
    ensures r.playlist == Splice(s.playlist, index)
    ensures r.isPlaying == s.isPlaying && r.settings == s.settings
    ensures index != s.currentIndex ==>
      r.issued == s.issued && r.currentIndex == if index < s.currentIndex then s.currentIndex - 1 else s.currentIndex
  {
    var p := Splice(s.playlist, index);
    var t := s.(playlist := p);
    if index == s.currentIndex then
      var c := Min(s.currentIndex, |p| - 1);
      Loaded(t.(currentIndex := c), c)
    else if index < s.currentIndex then t.(currentIndex := s.currentIndex - 1)
    else t
  }

  /** Removing a track other than the current one keeps the same track
      current. */
  lemma RemoveOtherKeepsCurrent(s: Session, index: int)
    requires 0 <= index < |s.playlist| && 0 <= s.currentIndex < |s.playlist| && index != s.currentIndex
    ensures var r := Removed(s, index);
      0 <= r.currentIndex < |r.playlist| && r.playlist[r.currentIndex] == s.playlist[s.currentIndex]
  {
    SpliceCases(s.playlist, index);
  }

  /** Removing the current track loads the track that took its place, or the
      new last track; removing the only track leaves the index at -1 with the
      element unloaded. */
  lemma RemoveCurrent(s: Session)
    requires 0 <= s.currentIndex < |s.playlist|
    ensures var r := Removed(s, s.currentIndex);
      |s.playlist| == 1 ==> r.playlist == [] && r.currentIndex == -1 && r.issued == s.issued + [Unload]
    ensures var r := Removed(s, s.currentIndex);
      |s.playlist| > 1 ==>
        r.currentIndex == Min(s.currentIndex, |s.playlist| - 2) && 0 <= r.currentIndex < |r.playlist| &&
        r.issued == s.issued + [Load(r.playlist[r.currentIndex].src)]
  {
    SpliceCases(s.playlist, s.currentIndex);
  }

  /** Once the only track is removed, a new import fills the playlist but
      leaves the index at -1, outside it. */
  lemma StrayIndexAfterRemoval(s: Session, files: seq<SourceFile>)
    requires |s.playlist| == 1 && s.currentIndex == 0 && AudioOnly(files) != []
    ensures var r := Imported(Removed(s, 0), files);
      r.playlist != [] && r.currentIndex == -1
  {
    SpliceCases(s.playlist, 0);
  }

  /** `clearPlaylist`, given the answer to the confirmation: an empty playlist
      at index 0, the element paused and unloaded, and `loadTrack(0)` on the
      empty playlist unloading it again. */
  function Cleared(s: Session, confirmed: bool): (r: Session)
    ensures !confirmed ==> r == s
    ensures confirmed ==>
      r.playlist == [] && r.currentIndex == 0 && r.issued == s.issued + [Pause, Unload, Unload]
    ensures r.isPlaying == s.isPlaying && r.settings == s.settings
  {
    if !confirmed then s
    else Loaded(Issue(s.(playlist := [], currentIndex := 0), [Pause, Unload]), 0)
  }

  /** `setVolume(v)`: the volume clamped into [0, 1], sent to the element;
      the mute flag is not touched. */
  function VolumeSet(s: Session, v: real): (r: Session)
    ensures r.settings == s.settings.(volume := ClampVolume(v))
    ensures r.issued == s.issued + [SetVolume(ClampVolume(v))]
    ensures r.playlist == s.playlist && r.currentIndex == s.currentIndex && r.isPlaying == s.isPlaying
  {
    var c := ClampVolume(v);
    Issue(s, [SetVolume(c)]).(settings := s.settings.(volume := c))
  }

  /** `adjustVolume(delta)`: `setVolume(volume + delta)`. */
  function VolumeAdjusted(s: Session, delta: real): (r: Session)
    ensures 0.0 <= r.settings.volume <= 1.0
    ensures r.settings.isMuted == s.settings.isMuted
  {
    VolumeSet(s, s.settings.volume + delta)
  }

  /** Adjusting within the range is undone by the opposite adjustment, and
      adjusting past an end stops at that end. */
  lemma AdjustBackAndForth(s: Session, delta: real)
    requires 0.0 <= s.settings.volume <= 1.0
    ensures 0.0 <= s.settings.volume + delta <= 1.0 ==>
      VolumeAdjusted(VolumeAdjusted(s, delta), -delta).settings == s.settings
    ensures s.settings.volume + delta > 1.0 ==> VolumeAdjusted(s, delta).settings.volume == 1.0
    ensures s.settings.volume + delta < 0.0 ==> VolumeAdjusted(s, delta).settings.volume == 0.0
  {
  }

  /** `toggleMute`: flips the flag and mutes or unmutes the element. */
  function MuteToggled(s: Session): (r: Session)
    ensures r.settings == s.settings.(isMuted := !s.settings.isMuted)
    ensures r.issued == s.issued + [SetMuted(!s.settings.isMuted)]
    ensures r.playlist == s.playlist && r.currentIndex == s.currentIndex && r.isPlaying == s.isPlaying
  {
    Issue(s, [SetMuted(!s.settings.isMuted)]).(settings := s.settings.(isMuted := !s.settings.isMuted))
  }

  /** Two toggles restore every setting; the volume is never touched. */
  lemma MuteTwiceRestores(s: Session)
    ensures MuteToggled(MuteToggled(s)).settings == s.settings
    ensures MuteToggled(MuteToggled(s)).issued == s.issued + [SetMuted(!s.settings.isMuted), SetMuted(s.settings.isMuted)]
  {
  }

  /** `toggleRepeat` with the order none, all, one. */
  function RepeatPressed(s: Session): (r: Session)
    ensures r.settings.repeatMode == NextRepeatReversed(s.settings.repeatMode)
    ensures r.(settings := s.settings) == s
    ensures r.settings.(repeatMode := s.settings.repeatMode) == s.settings
  {
    s.(settings := s.settings.(repeatMode := NextRepeatReversed(s.settings.repeatMode)))
  }

  /** This button undoes the other players' repeat button, and three presses
      restore the session. */
  lemma RepeatRunsBackwards(s: Session)
    ensures RepeatPressed(Sessions.RepeatToggled(s)) == s
    ensures RepeatPressed(RepeatPressed(RepeatPressed(s))) == s
  {
    ReversedCycleUndoes(s.settings.repeatMode);
    RepeatCycleHasPeriodThree(s.settings.repeatMode);
  }

  /** `togglePlay`, given whether resuming the audio context succeeded and
      whether the element is paused: nothing without a source; otherwise
      `play()` when paused and `pause()` when not. `isPlaying` waits for the
      element's events. */
  function PlayPressed(s: Session, resumeOk: bool, paused: bool): (r: Session)
    ensures Source(s.issued) == "" || !resumeOk ==> r == s
    ensures Source(s.issued) != "" && resumeOk ==> r.issued == s.issued + [if paused then Play else Pause]
    ensures r.(issued := s.issued) == s
  {
    if Source(s.issued) == "" || !resumeOk then s
    else Issue(s, [if paused then Play else Pause])
  }

  /** After a track is loaded the play button works; after the playlist is
      cleared it does nothing. */
  lemma PlayNeedsSource(s: Session, resumeOk: bool, paused: bool)
    requires 0 <= s.currentIndex < |s.playlist| && s.playlist[s.currentIndex].src != ""
    ensures var t := Loaded(s, s.currentIndex);
      PlayPressed(t, true, paused).issued == t.issued + [if paused then Play else Pause]
    ensures var t := Cleared(s, true);
      PlayPressed(t, resumeOk, paused) == t
  {
    var t := Loaded(s, s.currentIndex);
    SourceIsLastLoad(t.issued, |t.issued| - 1);
    var c := Cleared(s, true);
    assert c.issued[|c.issued| - 1] == Unload;
  }

  /** The `play` event. */
  function Played(s: Session): (r: Session)
    ensures r.isPlaying && r.(isPlaying := s.isPlaying) == s
  {
    s.(isPlaying := true)
  }

  /** The `pause` event. */
  function Paused(s: Session): (r: Session)
    ensures !r.isPlaying && r.(isPlaying := s.isPlaying) == s
  {
    s.(isPlaying := false)
  }

  /** `onTrackEnd`: replay on repeat one, advance on repeat all or before the
      last track, and otherwise nothing at all (the pause event follows). */
  function Ended(s: Session, draw: real): (r: Session)
    requires 0.0 <= draw < 1.0
    ensures r.isPlaying == s.isPlaying && r.playlist == s.playlist && r.settings == s.settings
  {
    match EndActionOf(s)
    case Replay => Replayed(s)
    case Advance => Next(s, draw)
    case Stop => s
  }

  lemma EndedBehaviour(s: Session, draw: real)
    requires 0.0 <= draw < 1.0
    ensures s.settings.repeatMode == One ==> Ended(s, draw) == Issue(s, [Seek(0.0), Play])
    ensures s.settings.repeatMode == Off && s.currentIndex >= |s.playlist| - 1 ==> Ended(s, draw) == s
    ensures s.settings.repeatMode == All || (s.settings.repeatMode == Off && s.currentIndex < |s.playlist| - 1) ==>
      Ended(s, draw) == Next(s, draw)
  {
  }

  class Player {
    var playlist: seq<Track>
    var currentIndex: int
    var isPlaying: bool
    var isShuffled: bool
    var repeatMode: RepeatMode
    var volume: real
    var isMuted: bool
    var issued: seq<Command>

    function State(): Session
      reads this
    {
      Session(playlist, currentIndex, isPlaying, Settings(isShuffled, repeatMode, volume, isMuted), issued)
    }

    constructor()
      ensures State() == Session([], 0, false, Settings(false, Off, DefaultVolume, false), [])
    {
      playlist := [];
      currentIndex := 0;
      isPlaying := false;
      isShuffled := false;
      repeatMode := Off;
      volume := DefaultVolume;
      isMuted := false;
      issued := [];
    }

    /** `loadTrack`; `thrown` reports the TypeError of a missing track. */
    method LoadTrack(index: int) returns (thrown: bool)
      modifies this
      ensures State() == Loaded(old(State()), index)
      ensures thrown == LoadThrows(old(State()), index)
    {
      if playlist == [] {
        issued := issued + [Unload];
        return false;
      }
      currentIndex := index;
      if index < 0 || index >= |playlist| {
        return true;
      }
      issued := issued + [Load(playlist[index].src)];
      return false;
    }

    method HandleFileSelection(files: seq<SourceFile>)
      modifies this
      ensures State() == Imported(old(State()), files)
    {
      var audio := AudioOnly(files);
      var tracks := BuildTracks(audio, TrackOf);
      playlist := playlist + tracks;
    }

    method TogglePlay(resumeOk: bool, paused: bool)
      modifies this
      ensures State() == PlayPressed(old(State()), resumeOk, paused)
    {
      if Source(issued) == "" || !resumeOk {
        return;
      }
      if paused {
        issued := issued + [Play];
      } else {
        issued := issued + [Pause];
      }
    }

    method PreviousTrack()
      modifies this
      ensures State() == Previous(old(State()))
    {
      if playlist == [] {
        return;
      }
      currentIndex := if currentIndex == 0 then |playlist| - 1 else currentIndex - 1;
      var thrown := LoadTrack(currentIndex);
      if thrown {
        return;
      }
      if isPlaying {
        issued := issued + [Play];
      }
    }

    method NextTrack(draw: real)
      requires 0.0 <= draw < 1.0
      modifies this
      ensures State() == Next(old(State()), draw)
    {
      if playlist == [] {
        return;
      }
      if isShuffled {
        currentIndex := RandomIndex(draw, |playlist|);
      } else {
        currentIndex := JsRem(currentIndex + 1, |playlist|);
      }
      var thrown := LoadTrack(currentIndex);
      if thrown {
        return;
      }
      if isPlaying {
        issued := issued + [Play];
      }
    }

    method ToggleShuffle()
      modifies this
      ensures State() == ShuffleToggled(old(State()))
    {
      isShuffled := !isShuffled;
    }

    method ToggleRepeat()
      modifies this
      ensures State() == RepeatPressed(old(State()))
    {
      repeatMode := NextRepeatReversed(repeatMode);
    }

    method SetVolume(v: real)
      modifies this
      ensures State() == VolumeSet(old(State()), v)
    {
      volume := if v > 1.0 then 1.0 else if v < 0.0 then 0.0 else v;
      issued := issued + [Command.SetVolume(volume)];
    }

    method AdjustVolume(delta: real)
      modifies this
      ensures State() == VolumeAdjusted(old(State()), delta)
    {
      SetVolume(volume + delta);
    }

    method ToggleMute()
      modifies this
      ensures State() == MuteToggled(old(State()))
    {
      isMuted := !isMuted;
      issued := issued + [SetMuted(isMuted)];
    }

    method ClearPlaylist(confirmed: bool)
      modifies this
      ensures State() == Cleared(old(State()), confirmed)
    {
      if !confirmed {
        return;
      }
      playlist := [];
      currentIndex := 0;
      issued := issued + [Pause, Unload];
      var _ := LoadTrack(0);
    }

    method RemoveTrack(index: int)
      modifies this
      ensures State() == Removed(old(State()), index)
    {
      playlist := Splice(playlist, index);
      if index == currentIndex {
        currentIndex := Min(currentIndex, |playlist| - 1);
        var _ := LoadTrack(currentIndex);
      } else if index < currentIndex {
        currentIndex := currentIndex - 1;
      }
    }

    method OnPlay()
      modifies this
      ensures State() == Played(old(State()))
    {
      isPlaying := true;
    }

    method OnPause()
      modifies this
      ensures State() == Paused(old(State()))
    {
      isPlaying := false;
    }

    method OnTrackEnd(draw: real)
      requires 0.0 <= draw < 1.0
      modifies this
      ensures State() == Ended(old(State()), draw)
    {
      if repeatMode == One {
        issued := issued + [Seek(0.0), Play];
      } else if repeatMode == All || currentIndex < |playlist| - 1 {
        NextTrack(draw);
      }
    }
  }
}
