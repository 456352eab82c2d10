/** The operations the folder and ocean players implement line for line
    alike: loading, previous and next with a uniform shuffle, the end of a
    track, the reset and clearing of the player, the volume slider and a
    mute that only flips a flag. */
module Plain {
  import opened Policy
  import opened Transport
  import opened Sessions

  /** `loadTrack(index)`: an index outside the playlist changes nothing;
      otherwise the track becomes current and is sent to the audio element. */
  function Loaded(s: Session, index: int): (r: Session)
    ensures !(0 <= index < |s.playlist|) ==> r == s
    ensures 0 <= index < |s.playlist| ==>
      r == Issue(s, [Load(s.playlist[index].src)]).(currentIndex := index) && IndexValid(r)
    ensures IndexValid(s) ==> IndexValid(r)
  {
    if index < 0 || index >= |s.playlist| then s
    else Issue(s, [Load(s.playlist[index].src)]).(currentIndex := index)
  }

  /** `previousTrack`. */
  function Previous(s: Session): (r: Session)
    requires IndexValid(s)
    ensures IndexValid(r)
    ensures s.playlist == [] ==> r == s
    ensures s.playlist != [] ==>
      var n := |s.playlist|;
      r.currentIndex == (s.currentIndex - 1 + n) % n && r.playlist == s.playlist &&
      r.issued == s.issued + [Load(s.playlist[r.currentIndex].src)] + (if s.isPlaying then [Play] else [])
    ensures r.isPlaying == s.isPlaying && r.settings == s.settings
  {
    if s.playlist == [] then s
    else ResumeIfPlaying(Loaded(s, WrapPrev(s.currentIndex, |s.playlist|)))
  }

  /** `nextTrack`, given a draw of `Math.random()`: a uniform pick under
      shuffle, otherwise the next index, from the last back to the first. */
  function Next(s: Session, draw: real): (r: Session)
    requires IndexValid(s) && 0.0 <= draw < 1.0
    ensures IndexValid(r)
    ensures s.playlist == [] ==> r == s
    ensures s.playlist != [] && !s.settings.isShuffled ==>
      r.currentIndex == (s.currentIndex + 1) % |s.playlist|
    ensures s.playlist != [] && s.settings.isShuffled ==>
      r.currentIndex == RandomIndex(draw, |s.playlist|)
    ensures s.playlist != [] ==>
      r.issued == s.issued + [Load(s.playlist[r.currentIndex].src)] + (if s.isPlaying then [Play] else [])
    ensures r.playlist == s.playlist && r.settings == s.settings && r.isPlaying == s.isPlaying
  {
    if s.playlist == [] then s
    else
      var n := |s.playlist|;
      var i := if s.settings.isShuffled then RandomIndex(draw, n) else WrapNext(s.currentIndex, n);
      ResumeIfPlaying(Loaded(s, i))
  }

  /** Under shuffle every track can come next, the current one included. */
  lemma ShuffledNextReachesAll(s: Session, i: nat)
    requires IndexValid(s) && s.settings.isShuffled && i < |s.playlist|
    ensures Next(s, i as real / |s.playlist| as real).currentIndex == i
  {
    EveryIndexDrawable(i, |s.playlist|);
  }

  /** `onTrackEnded`. */
  function Ended(s: Session, draw: real): (r: Session)
    requires IndexValid(s) && 0.0 <= draw < 1.0
    ensures IndexValid(r)
  {
    match EndActionOf(s)
    case Replay => Replayed(s)
    case Advance => Next(s, draw)
    case Stop => s.(isPlaying := false)
  }

  /** Repeat one keeps the track; at the last track with repeat off playback
      stops where it is; otherwise the next track is loaded. */
  lemma EndedBehaviour(s: Session, draw: real)
    requires IndexValid(s) && 0.0 <= draw < 1.0
    ensures s.settings.repeatMode == One ==>
      var r := Ended(s, draw);
      r.currentIndex == s.currentIndex && r.playlist == s.playlist && r.isPlaying == s.isPlaying &&
      r.issued == s.issued + [Seek(0.0), Play]
    ensures s.settings.repeatMode == Off && s.currentIndex == |s.playlist| - 1 ==>
      var r := Ended(s, draw);
      !r.isPlaying && r.currentIndex == s.currentIndex && r.playlist == s.playlist && r.issued == s.issued
    ensures s.settings.repeatMode == All || (s.settings.repeatMode == Off && s.currentIndex < |s.playlist| - 1) ==>
      Ended(s, draw) == Next(s, draw)
  {
  }

  /** `resetPlayer`: the element is emptied and playback is off. */
  function Reset(s: Session): (r: Session)
    ensures r.issued == s.issued + [Unload] && Source(r.issued) == ""
    ensures !r.isPlaying && r.(issued := s.issued, isPlaying := s.isPlaying) == s
  {
    Issue(s, [Unload]).(isPlaying := false)
  }

  /** `clearPlaylist`, given the answer to the confirmation: nothing on an
      empty playlist or a refusal; otherwise an empty playlist at index 0,
      reset. */
  function Cleared(s: Session, confirmed: bool): (r: Session)
    ensures s.playlist == [] || !confirmed ==> r == s
    ensures s.playlist != [] && confirmed ==>
      r.playlist == [] && r.currentIndex == 0 && !r.isPlaying &&
      r.settings == s.settings && r.issued == s.issued + [Unload]
  {
    if s.playlist == [] || !confirmed then s
    else Reset(s.(playlist := [], currentIndex := 0))
  }

  /** `onVolumeChange` for a slider at `slider` (0 to 100): the volume is the
      slider over 100, muted exactly when it is 0. The first step assigns
      the element's volume, which throws outside [0, 1], so such a value
      changes nothing. */
  function VolumeChanged(s: Session, slider: real): (r: Session)
    ensures !(0.0 <= slider <= 100.0) ==> r == s
    ensures 0.0 <= slider <= 100.0 ==>
      && r.settings == s.settings.(volume := slider / 100.0, isMuted := slider == 0.0)
      && r.issued == s.issued + [SetVolume(slider / 100.0)]
    ensures r.playlist == s.playlist && r.currentIndex == s.currentIndex && r.isPlaying == s.isPlaying
  {
    var v := slider / 100.0;
    if v < 0.0 || v > 1.0 then s
    else Issue(s, [SetVolume(v)]).(settings := s.settings.(volume := v, isMuted := v == 0.0))
  }

  /** `toggleMute`: flips the flag; the element gets 0 or the kept volume. */
  function MuteToggled(s: Session): (r: Session)
    ensures r.settings == s.settings.(isMuted := !s.settings.isMuted)
    ensures r.issued == s.issued + [SetVolume(if r.settings.isMuted then 0.0 else s.settings.volume)]
    ensures r.playlist == s.playlist && r.currentIndex == s.currentIndex && r.isPlaying == s.isPlaying
  {
    var muted := !s.settings.isMuted;
    Issue(s, [SetVolume(if muted then 0.0 else s.settings.volume)]).(settings := s.settings.(isMuted := muted))
  }

  /** Muting never touches the stored volume: two toggles restore the
      settings and leave the element at that volume. */
  lemma MuteTwiceRestores(s: Session)
    ensures MuteToggled(MuteToggled(s)).settings == s.settings
    ensures MuteToggled(s).settings.volume == s.settings.volume
    ensures !s.settings.isMuted ==>
      MuteToggled(MuteToggled(s)).issued == s.issued + [SetVolume(0.0), SetVolume(s.settings.volume)]
  {
  }
}
