/** The playback session every player keeps: its playlist, the index of the
    current track, whether it believes it is playing, the user's settings and
    the commands sent so far to the audio element. Each player module gives
    the effect of its operations as functions from one session value to the
    next, and its class performs them in place on its fields. */
module Sessions {
  import opened Policy
  import opened Catalog
  import opened Transport

  /** The `state` fields set by the shuffle, repeat and volume controls. */
  datatype Settings = Settings(isShuffled: bool, repeatMode: RepeatMode, volume: real, isMuted: bool)

  datatype Session = Session(
    playlist: seq<Track>,
    currentIndex: int,
    isPlaying: bool,
    settings: Settings,
    issued: seq<Command>)

  /** A non-empty playlist has its current index inside it. */
  predicate IndexValid(s: Session) {
    s.playlist != [] ==> 0 <= s.currentIndex < |s.playlist|
  }

  /** The session after sending `cmds` to the audio element. */
  function Issue(s: Session, cmds: seq<Command>): (r: Session)
    ensures r.issued == s.issued + cmds
    ensures r.(issued := s.issued) == s
  {
    s.(issued := s.issued + cmds)
  }

  /** `if (state.isPlaying) audio.play()`, which follows every track change:
      only a Play command may be added, and the element keeps its source. */
  function ResumeIfPlaying(s: Session): (r: Session)
    ensures r.issued == s.issued + (if s.isPlaying then [Play] else [])
    ensures r.(issued := s.issued) == s
    ensures Source(r.issued) == Source(s.issued)
  {
    SourceSkipsPlayback(s.issued, if s.isPlaying then [Play] else []);
    if s.isPlaying then Issue(s, [Play]) else s
  }

  /** `toggleShuffle`: flips the flag and nothing else. */
  function ShuffleToggled(s: Session): (r: Session)
    ensures r.settings.isShuffled == !s.settings.isShuffled
    ensures r.(settings := s.settings) == s
    ensures r.settings.(isShuffled := s.settings.isShuffled) == s.settings
  {
    s.(settings := s.settings.(isShuffled := !s.settings.isShuffled))
  }

  /** Shuffling twice is no change. */
  lemma ShuffleTwice(s: Session)
    ensures ShuffleToggled(ShuffleToggled(s)) == s
  {
  }

  /** `toggleRepeat` with the order none, one, all. */
  function RepeatToggled(s: Session): (r: Session)
    ensures r.settings.repeatMode == NextRepeat(s.settings.repeatMode)
    ensures r.(settings := s.settings) == s
    ensures r.settings.(repeatMode := s.settings.repeatMode) == s.settings
  {
    s.(settings := s.settings.(repeatMode := NextRepeat(s.settings.repeatMode)))
  }

  /** Three presses of the repeat button restore the session. */
  lemma RepeatThrice(s: Session)
    ensures RepeatToggled(RepeatToggled(RepeatToggled(s))) == s
    ensures RepeatToggled(s) != s
  {
    RepeatCycleHasPeriodThree(s.settings.repeatMode);
  }

  /** The branch `onTrackEnded` takes. */
  datatype EndAction = Replay | Advance | Stop

  /** Replay on repeat one; advance on repeat all or before the last track;
      otherwise stop. */
  function EndActionOf(s: Session): (a: EndAction)
    ensures a == Replay <==> s.settings.repeatMode == One
    ensures a == Advance <==> s.settings.repeatMode == All || (s.settings.repeatMode != One && s.currentIndex < |s.playlist| - 1)
    ensures a == Stop <==> s.settings.repeatMode != One && s.settings.repeatMode != All && s.currentIndex >= |s.playlist| - 1
  {
    if s.settings.repeatMode == One then Replay
    else if s.settings.repeatMode == All || s.currentIndex < |s.playlist| - 1 then Advance
    else Stop
  }

  /** `audio.currentTime = 0; audio.play()`: the same source plays again from
      the start, and nothing else in the session changes. */
  function Replayed(s: Session): (r: Session)
    ensures r.issued == s.issued + [Seek(0.0), Play]
    ensures r.(issued := s.issued) == s
    ensures Source(r.issued) == Source(s.issued)
  {
    SourceSkipsPlayback(s.issued, [Seek(0.0), Play]);
    Issue(s, [Seek(0.0), Play])
  }

  /** `togglePlay` of the ultra-modern and folder players: nothing on
      an empty playlist; a playing session pauses; otherwise `play()` is
      awaited and only its success sets `isPlaying` (a rejection is caught
      and leaves it false). */
  function PlayToggled(s: Session, playOk: bool): (r: Session)
    ensures s.playlist == [] ==> r == s
    ensures s.playlist != [] && s.isPlaying ==> !r.isPlaying && r.issued == s.issued + [Pause]
    ensures s.playlist != [] && !s.isPlaying ==> r.isPlaying == playOk && r.issued == s.issued + [Play]
    ensures r.playlist == s.playlist && r.currentIndex == s.currentIndex && r.settings == s.settings
  {
    if s.playlist == [] then s
    else if s.isPlaying then Issue(s, [Pause]).(isPlaying := false)
    else Issue(s, [Play]).(isPlaying := playOk)
  }

  /** A rejected `play()` leaves the session believing what it did before. */
  lemma RejectedPlayKeepsState(s: Session)
    requires !s.isPlaying
    ensures PlayToggled(s, false).isPlaying == s.isPlaying
    ensures PlayToggled(s, false).(issued := s.issued) == s
  {
  }
}
