/** `OceanMusicPlayer` (ocean-music-player/script.js): imports append to the
    playlist, a single track can be removed with the current index kept on
    a sensible track, and the session is saved as a projection of each
    track. Its loading, stepping, end-of-track, clearing and volume
    handling are those of `Plain`. */
module Ocean {
  import opened Policy
  import opened Catalog
  import opened Transport
  import opened Sessions
  import opened Plain
  import Clock
  import Text

  const DefaultVolume: real := 0.5

  /** The record `createTrackFromFile` resolves with; a failed probe gives a
      duration of 0 like a probe that reports none. */
  function TrackOf(f: SourceFile): (r: Track)
    ensures r.title == Text.OceanTitle(f.name) && r.artist == "Artiste Inconnu" && r.src == f.url
    ensures r.duration == Clock.Num(if f.probed.Num? then f.probed.value else 0.0)
  {
    Track("", Text.OceanTitle(f.name), "Artiste Inconnu", Clock.Num(DurationOrZero(f.probed)), f.url, "", 0, false, 0)
  }

  /** `processFiles`: the audio files' tracks are appended; only when the
      playlist holds nothing but them (a first import) is the first loaded. */
  function Imported(s: Session, files: seq<SourceFile>): (r: Session)
    ensures AudioOnly(files) == [] ==> r == s
    ensures IndexValid(s) ==> IndexValid(r)
  {
    var audio := AudioOnly(files);
    if audio == [] then s
    else
      var appended := s.(playlist := s.playlist + TracksOf(audio, TrackOf));
      if |appended.playlist| == |audio| then Loaded(appended, 0) else appended
  }

  /** An import keeps the tracks already there in place; it loads the first
      track exactly when the playlist was empty, and otherwise leaves the
      current index and the audio element alone. */
  lemma ImportAppends(s: Session, files: seq<SourceFile>)
    requires AudioOnly(files) != []
    ensures var r := Imported(s, files);
      && r.playlist == s.playlist + TracksOf(AudioOnly(files), TrackOf)
      && r.playlist[..|s.playlist|] == s.playlist
      && r.isPlaying == s.isPlaying && r.settings == s.settings
    ensures s.playlist == [] ==>
      var r := Imported(s, files);
      r.currentIndex == 0 && r.issued == s.issued + [Load(r.playlist[0].src)]
    ensures s.playlist != [] ==>
      var r := Imported(s, files);
      r.currentIndex == s.currentIndex && r.issued == s.issued
  {
    var r := Imported(s, files);
    assert r.playlist[..|s.playlist|] == s.playlist;
  }

  /** `removeTrack(index)`: an index outside the playlist changes nothing;
      otherwise that track is spliced out. An earlier track moves the
      current index down by one; the current track itself leaves the index
      where it is, or on the new last track, and that track is loaded, or
      the player is reset when nothing is left; a later track leaves the
      index alone. */
  function Removed(s: Session, index: int): (r: Session)
    ensures !(0 <= index < |s.playlist|) ==> r == s
    ensures 0 <= index < |s.playlist| ==> r.playlist == RemoveAt(s.playlist, index)
    ensures IndexValid(s) ==> IndexValid(r)
  {
    if index < 0 || index >= |s.playlist| then s
    else
      var p := RemoveAt(s.playlist, index);
      if index < s.currentIndex then s.(playlist := p, currentIndex := s.currentIndex - 1)
      else if index == s.currentIndex then
        var c := if s.currentIndex >= |p| then (if |p| - 1 > 0 then |p| - 1 else 0) else s.currentIndex;
        var t := s.(playlist := p, currentIndex := c);
        if |p| > 0 then Loaded(t, c) else Reset(t)
      else s.(playlist := p)
  }

  /** Removing any track but the current one keeps the same track current,
      and touches neither playback nor the audio element. */
  lemma RemoveOtherKeepsCurrent(s: Session, index: int)
    requires IndexValid(s) && 0 <= index < |s.playlist| && index != s.currentIndex
    ensures var r := Removed(s, index);
      && r.playlist[r.currentIndex] == s.playlist[s.currentIndex]
      && r.isPlaying == s.isPlaying && r.issued == s.issued && r.settings == s.settings
  {
  }

  /** Removing the current track loads the track that took its place, or the
      new last track when it was the last; removing the only track resets
      the player to index 0 with playback off. */
  lemma RemoveCurrent(s: Session)
    requires IndexValid(s) && s.playlist != []
    ensures var r := Removed(s, s.currentIndex);
      |s.playlist| == 1 ==>
        r.playlist == [] && r.currentIndex == 0 && !r.isPlaying && r.issued == s.issued + [Unload]
    ensures var r := Removed(s, s.currentIndex);
      |s.playlist| > 1 && s.currentIndex < |s.playlist| - 1 ==>
        r.currentIndex == s.currentIndex && r.playlist[r.currentIndex] == s.playlist[s.currentIndex + 1] &&
        r.issued == s.issued + [Load(r.playlist[r.currentIndex].src)]
    ensures var r := Removed(s, s.currentIndex);
      |s.playlist| > 1 && s.currentIndex == |s.playlist| - 1 ==>
        r.currentIndex == |s.playlist| - 2 && r.playlist[r.currentIndex] == s.playlist[|s.playlist| - 2] &&
        r.issued == s.issued + [Load(r.playlist[r.currentIndex].src)]
  {
  }

  /** A removed track can be put back where it was. */
  lemma RemovedRestores(s: Session, index: int)
    requires 0 <= index < |s.playlist|
    ensures var p := Removed(s, index).playlist;
      p[..index] + [s.playlist[index]] + p[index..] == s.playlist
  {
    RemoveAtRestores(s.playlist, index);
  }

  /** `togglePlay` of the ocean player, given whether the resume of a
      suspended audio context succeeded (true when none was needed) and
      whether `play()` resolved. The resume comes first, before either
      branch, so its rejection is caught with nothing paused or played. */
  function PlayToggledAfterResume(s: Session, resumeOk: bool, playOk: bool): (r: Session)
    ensures s.playlist == [] || !resumeOk ==> r == s
    ensures s.playlist != [] && resumeOk && s.isPlaying ==>
      !r.isPlaying && r.issued == s.issued + [Pause]
    ensures s.playlist != [] && resumeOk && !s.isPlaying ==>
      r.isPlaying == playOk && r.issued == s.issued + [Play]
    ensures r.playlist == s.playlist && r.currentIndex == s.currentIndex && r.settings == s.settings
  {
    if s.playlist == [] || !resumeOk then s else PlayToggled(s, playOk)
  }

  /** What `saveData` writes: the whole `state` record and each track cut
      down to its title, artist, duration and source. */
  datatype Snapshot = Snapshot(currentIndex: int, isPlaying: bool, settings: Settings, playlist: seq<SavedTrack>)

  function Saved(s: Session): (r: Snapshot)
    ensures r.currentIndex == s.currentIndex && r.isPlaying == s.isPlaying && r.settings == s.settings
    ensures |r.playlist| == |s.playlist|
    ensures forall k :: 0 <= k < |s.playlist| ==>
      r.playlist[k] == SavedTrack(s.playlist[k].title, s.playlist[k].artist, s.playlist[k].duration, s.playlist[k].src)
  {
    Snapshot(s.currentIndex, s.isPlaying, s.settings, Save(s.playlist))
  }

  /** `loadStoredData` applied to a snapshot: the stored state fields replace
      the session's and the stored tracks become the playlist. */
  function Reloaded(s: Session, d: Snapshot): (r: Session)
    ensures r.playlist == Restore(d.playlist) && r.issued == s.issued
    ensures r.currentIndex == d.currentIndex && r.isPlaying == d.isPlaying && r.settings == d.settings
  {
    s.(playlist := Restore(d.playlist), currentIndex := d.currentIndex, isPlaying := d.isPlaying, settings := d.settings)
  }

  /** A save followed by a reload keeps the state and every saved field of
      every track, so saving again writes the same snapshot. */
  lemma SaveReloadSave(s: Session, start: Session)
    ensures var r := Reloaded(start, Saved(s));
      r.currentIndex == s.currentIndex && r.isPlaying == s.isPlaying && r.settings == s.settings &&
      |r.playlist| == |s.playlist| && IndexValid(r) == IndexValid(s)
    ensures Saved(Reloaded(start, Saved(s))) == Saved(s)
  {
    SaveRestoreSave(s.playlist);
  }

  class Player {
    var playlist: seq<Track>
    var currentIndex: int
    var isPlaying: bool
    var isShuffled: bool
    var repeatMode: RepeatMode
    var volume: real
    var isMuted: bool
    var issued: seq<Command>

    function State(): Session
      reads this
    {
      Session(playlist, currentIndex, isPlaying, Settings(isShuffled, repeatMode, volume, isMuted), issued)
    }

    ghost predicate Valid()
      reads this
    {
      IndexValid(State())
    }

    constructor()
      ensures Valid()
      ensures State() == Session([], 0, false, Settings(false, Off, DefaultVolume, false), [])
    {
      playlist := [];
      currentIndex := 0;
      isPlaying := false;
      isShuffled := false;
      repeatMode := Off;
      volume := DefaultVolume;
      isMuted := false;
      issued := [];
    }

    method LoadTrack(index: int)
      modifies this
      ensures State() == Loaded(old(State()), index)
      ensures old(Valid()) || 0 <= index < |old(playlist)| ==> Valid()
    {
      if index < 0 || index >= |playlist| {
        return;
      }
      currentIndex := index;
      issued := issued + [Load(playlist[index].src)];
    }

    method ResetPlayer()
      modifies this
      ensures State() == Reset(old(State()))
    {
      issued := issued + [Unload];
      isPlaying := false;
    }

    /** `processFiles`. */
    method ProcessFiles(files: seq<SourceFile>)
      requires Valid()
      modifies this
      ensures Valid() && State() == Imported(old(State()), files)
    {
      var audio := AudioOnly(files);
      if audio == [] {
        return;
      }
      var tracks := BuildTracks(audio, TrackOf);
      playlist := playlist + tracks;
      if |playlist| == |audio| {
        LoadTrack(0);
      }
    }

    method RemoveTrack(index: int)
      requires Valid()
      modifies this
      ensures Valid() && State() == Removed(old(State()), index)
    {
      if index < 0 || index >= |playlist| {
        return;
      }
      playlist := RemoveAt(playlist, index);
      if index < currentIndex {
        currentIndex := currentIndex - 1;
      } else if index == currentIndex {
        if currentIndex >= |playlist| {
          currentIndex := if |playlist| - 1 > 0 then |playlist| - 1 else 0;
        }
        if |playlist| > 0 {
          LoadTrack(currentIndex);
        } else {
          ResetPlayer();
        }
      }
    }

    method ClearPlaylist(confirmed: bool)
      requires Valid()
      modifies this
      ensures Valid() && State() == Cleared(old(State()), confirmed)
    {
      if playlist == [] {
        return;
      }
      if confirmed {
        playlist := [];
        currentIndex := 0;
        ResetPlayer();
      }
    }

    method TogglePlay(resumeOk: bool, playOk: bool)
      requires Valid()
      modifies this
      ensures Valid() && State() == PlayToggledAfterResume(old(State()), resumeOk, playOk)
    {
      if playlist == [] {
        return;
      }
      if !resumeOk {
        return;
      }
      if isPlaying {
        issued := issued + [Pause];
        isPlaying := false;
      } else {
        issued := issued + [Play];
        isPlaying := playOk;
      }
    }

    method PreviousTrack()
      requires Valid()
      modifies this
      ensures Valid() && State() == Previous(old(State()))
    {
      if playlist == [] {
        return;
      }
      var newIndex := currentIndex - 1;
      if newIndex < 0 {
        newIndex := |playlist| - 1;
      }
      LoadTrack(newIndex);
      if isPlaying {
        issued := issued + [Play];
      }
    }

    method NextTrack(draw: real)
      requires Valid() && 0.0 <= draw < 1.0
      modifies this
      ensures Valid() && State() == Next(old(State()), draw)
    {
      if playlist == [] {
        return;
      }
      var newIndex;
      if isShuffled {
        newIndex := RandomIndex(draw, |playlist|);
      } else {
        newIndex := currentIndex + 1;
        if newIndex >= |playlist| {
          newIndex := 0;
        }
      }
      LoadTrack(newIndex);
      if isPlaying {
        issued := issued + [Play];
      }
    }

    method ToggleShuffle()
      requires Valid()
      modifies this
      ensures Valid() && State() == ShuffleToggled(old(State()))
    {
      isShuffled := !isShuffled;
    }

    method ToggleRepeat()
      requires Valid()
      modifies this
      ensures Valid() && State() == RepeatToggled(old(State()))
    {
      repeatMode := NextRepeat(repeatMode);
    }

    method OnTrackEnded(draw: real)
      requires Valid() && 0.0 <= draw < 1.0
      modifies this
      ensures Valid() && State() == Ended(old(State()), draw)
    {
      if repeatMode == One {
        issued := issued + [Seek(0.0), Play];
      } else if repeatMode == All || currentIndex < |playlist| - 1 {
        NextTrack(draw);
      } else {
        isPlaying := false;
      }
    }

    method OnVolumeChange(slider: real)
      requires Valid()
      modifies this
      ensures Valid() && State() == VolumeChanged(old(State()), slider)
    {
      var v := slider / 100.0;
      if v < 0.0 || v > 1.0 {
        return;
      }
      issued := issued + [Command.SetVolume(v)];
      volume := v;
      isMuted := v == 0.0;
    }

    method ToggleMute()
      requires Valid()
      modifies this
      ensures Valid() && State() == MuteToggled(old(State()))
    {
      isMuted := !isMuted;
      if isMuted {
        issued := issued + [Command.SetVolume(0.0)];
      } else {
        issued := issued + [Command.SetVolume(volume)];
      }
    }
  }
}
