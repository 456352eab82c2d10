/** `UltraModernMusicPlayer` (ultra-modern-player/script.js, first
    declaration, and its copy in Music_player/ultra-modern-player/script.js):
    a player whose track records count their plays and remember when they
    were last left, with a "smart" shuffle that avoids recently played
    tracks. The second, reduced declaration of the class in
    ultra-modern-player/script.js appears here as `SequentialNext` and
    `SequentialEnded`. */
module UltraModern {
  import opened Optional
  import opened Policy
  import opened Catalog
  import opened Transport
  import opened Sessions
  import Clock
  import Text

  /** The initial `volume`, and the level an unmute falls back to. */
  const DefaultVolume: real := 0.7

  /** `track.playCount++` on the track at `i`: that count goes up by one and
      every other field and track stays as it was. */
  function Played(p: seq<Track>, i: nat): (r: seq<Track>)
    requires i < |p|
    ensures |r| == |p| && forall k :: 0 <= k < |p| && k != i ==> r[k] == p[k]
    ensures r[i].playCount == p[i].playCount + 1 && r[i].(playCount := p[i].playCount) == p[i]
  {
    p[i := p[i].(playCount := p[i].playCount + 1)]
  }

  /** `playlist[i].lastPlayed = now`: that track records the time, nothing
      else changes. */
  function Stamped(p: seq<Track>, i: nat, now: nat): (r: seq<Track>)
    requires i < |p|
    ensures |r| == |p| && forall k :: 0 <= k < |p| && k != i ==> r[k] == p[k]
    ensures r[i].lastPlayed == now && r[i].(lastPlayed := p[i].lastPlayed) == p[i]
  {
    p[i := p[i].(lastPlayed := now)]
  }

  /** `playlist.map(track => track.lastPlayed || 0)`. */
  function LastPlayedOf(p: seq<Track>): (r: seq<nat>)
    ensures |r| == |p| && forall k :: 0 <= k < |p| ==> r[k] == p[k].lastPlayed
  {
    seq(|p|, k requires 0 <= k < |p| => p[k].lastPlayed)
  }

  /** The plays counted over the whole playlist: no less than any one
      track's count. */
  function TotalPlays(p: seq<Track>): (r: nat)
    ensures p == [] ==> r == 0
    ensures forall k :: 0 <= k < |p| ==> r >= p[k].playCount
  {
    if p == [] then 0 else TotalPlays(p[..|p| - 1]) + p[|p| - 1].playCount
  }

  /** Replacing one track changes the total by the difference of its counts. */
  lemma {:induction false} TotalPlaysUpdate(p: seq<Track>, i: nat, t: Track)
    requires i < |p|
    ensures TotalPlays(p[i := t]) + p[i].playCount == TotalPlays(p) + t.playCount
    decreases |p|
  {
    var q := p[i := t];
    if i == |p| - 1 {
      assert q[..|q| - 1] == p[..|p| - 1];
    } else {
      assert q[..|q| - 1] == p[..|p| - 1][i := t];
      TotalPlaysUpdate(p[..|p| - 1], i, t);
    }
  }

  /** Loading a track counts exactly one play, on that track: no count ever
      goes down. */
  lemma PlayedCountsOnce(p: seq<Track>, i: nat)
    requires i < |p|
    ensures TotalPlays(Played(p, i)) == TotalPlays(p) + 1
    ensures forall k :: 0 <= k < |p| ==> Played(p, i)[k].playCount >= p[k].playCount
  {
    TotalPlaysUpdate(p, i, p[i].(playCount := p[i].playCount + 1));
  }

  /** `#loadTrack(index)`: an index outside the playlist changes nothing;
      otherwise the track becomes current, is sent to the audio element and
      has one more play. */
  function Loaded(s: Session, index: int): (r: Session)
    ensures !(0 <= index < |s.playlist|) ==> r == s
    ensures 0 <= index < |s.playlist| ==>
      && r.currentIndex == index
      && |r.playlist| == |s.playlist|
      && r.playlist[index] == s.playlist[index].(playCount := s.playlist[index].playCount + 1)
      && (forall k :: 0 <= k < |s.playlist| && k != index ==> r.playlist[k] == s.playlist[k])
      && r.issued == s.issued + [Load(s.playlist[index].src)]
      && r.isPlaying == s.isPlaying && r.settings == s.settings
    ensures IndexValid(s) ==> IndexValid(r)
  {
    if index < 0 || index >= |s.playlist| then s
    else Issue(s, [Load(s.playlist[index].src)]).(currentIndex := index, playlist := Played(s.playlist, index))
  }

  /** `#previousTrack`: one back, from the first track to the last, then play
      on if playing. */
  function Previous(s: Session): (r: Session)
    requires IndexValid(s)
    ensures IndexValid(r)
    ensures s.playlist == [] ==> r == s
    ensures s.playlist != [] ==>
      var n := |s.playlist|;
      r.currentIndex == (s.currentIndex - 1 + n) % n &&
      r == ResumeIfPlaying(Loaded(s, (s.currentIndex - 1 + n) % n))
  {
    if s.playlist == [] then s
    else ResumeIfPlaying(Loaded(s, WrapPrev(s.currentIndex, |s.playlist|)))
  }

  /** The index `#nextTrack` moves to: the smart shuffle's pick, or the next
      index around the end. */
  function NextChoice(p: seq<Track>, ci: nat, shuffled: bool, draw: real): (r: nat)
    requires ci < |p| && 0.0 <= draw < 1.0
    ensures r < |p|
  {
    if shuffled then SmartShuffle(LastPlayedOf(p), ci, draw) else (ci + 1) % |p|
  }

  /** `#nextTrack`, given the clock reading `now` and a draw of
      `Math.random()`: stamps the track being left, loads the chosen one and
      plays on if playing. */
  function Next(s: Session, now: nat, draw: real): (r: Session)
    requires IndexValid(s) && 0.0 <= draw < 1.0
    ensures IndexValid(r)
    ensures s.playlist == [] ==> r == s
    ensures s.playlist != [] && !s.settings.isShuffled ==> r.currentIndex == (s.currentIndex + 1) % |s.playlist|
    ensures s.playlist != [] && s.settings.isShuffled ==>
      r.currentIndex == SmartShuffle(LastPlayedOf(s.playlist), s.currentIndex, draw)
  {
    if s.playlist == [] then s
    else
      var i := NextChoice(s.playlist, s.currentIndex, s.settings.isShuffled, draw);
      ResumeIfPlaying(Loaded(s.(playlist := Stamped(s.playlist, s.currentIndex, now)), i))
  }

  /** The time stamp goes on the track that was current, not on the one
      loaded; the loaded one gets the play. */
  lemma NextStampsTrackLeft(s: Session, now: nat, draw: real)
    requires IndexValid(s) && 0.0 <= draw < 1.0 && s.playlist != []
    ensures var r := Next(s, now, draw);
      && |r.playlist| == |s.playlist|
      && (forall k :: 0 <= k < |s.playlist| ==>
            r.playlist[k].lastPlayed == if k == s.currentIndex then now else s.playlist[k].lastPlayed)
      && (forall k :: 0 <= k < |s.playlist| ==>
            r.playlist[k].playCount == if k == r.currentIndex then s.playlist[k].playCount + 1 else s.playlist[k].playCount)
      && r.issued == s.issued + [Load(s.playlist[r.currentIndex].src)] + (if s.isPlaying then [Play] else [])
      && (forall k :: 0 <= k < |s.playlist| ==>
            r.playlist[k] == s.playlist[k].(lastPlayed := r.playlist[k].lastPlayed, playCount := r.playlist[k].playCount))
      && r.isPlaying == s.isPlaying && r.settings == s.settings
  {
  }

  /** With seven tracks or more, the shuffled next track is neither the
      current one nor one of the five played most recently. */
  lemma ShuffledNextAvoidsRecent(s: Session, now: nat, draw: real)
    requires IndexValid(s) && 0.0 <= draw < 1.0
    requires s.settings.isShuffled && |s.playlist| >= 7
    ensures Next(s, now, draw).currentIndex != s.currentIndex
    ensures Next(s, now, draw).currentIndex !in RecentIndices(LastPlayedOf(s.playlist))
  {
    ShuffleAvoidsCurrentFromSeven(LastPlayedOf(s.playlist), s.currentIndex, draw);
  }

  /** `#setVolume`: the clamped level, muted exactly when it is 0. */
  function VolumeSet(s: Session, v: real): (r: Session)
    ensures r.settings.volume == ClampVolume(v)
    ensures 0.0 <= r.settings.volume <= 1.0
    ensures r.settings.isMuted <==> r.settings.volume == 0.0
    ensures r.issued == s.issued + [SetVolume(r.settings.volume)]
    ensures r.playlist == s.playlist && r.currentIndex == s.currentIndex && r.isPlaying == s.isPlaying
    ensures r.settings.isShuffled == s.settings.isShuffled && r.settings.repeatMode == s.settings.repeatMode
  {
    var level := ClampVolume(v);
    Issue(s, [SetVolume(level)]).(settings := s.settings.(volume := level, isMuted := level == 0.0))
  }

  /** `#toggleMute`: muting silences the element but keeps the volume;
      unmuting sets the volume again, or 0.7 when it was 0. */
  function MuteToggled(s: Session): (r: Session)
    ensures !s.settings.isMuted ==>
      r.settings == s.settings.(isMuted := true) && r.issued == s.issued + [SetVolume(0.0)]
    ensures s.settings.isMuted && s.settings.volume > 0.0 ==> r == VolumeSet(s, s.settings.volume)
    ensures s.settings.isMuted && s.settings.volume <= 0.0 ==> r == VolumeSet(s, DefaultVolume)
    ensures r.playlist == s.playlist && r.currentIndex == s.currentIndex && r.isPlaying == s.isPlaying
  {
    if s.settings.isMuted then VolumeSet(s, if s.settings.volume > 0.0 then s.settings.volume else DefaultVolume)
    else Issue(s, [SetVolume(0.0)]).(settings := s.settings.(isMuted := true))
  }

  /** Muting and unmuting gives back the volume the user had. */
  lemma MuteTwiceRestores(s: Session)
    requires !s.settings.isMuted && 0.0 < s.settings.volume <= 1.0
    ensures MuteToggled(MuteToggled(s)).settings == s.settings
  {
  }

  /** Unmuting from a zero volume comes back at 0.7. */
  lemma UnmuteFromSilence(s: Session)
    requires s.settings.isMuted && s.settings.volume == 0.0
    ensures MuteToggled(s).settings.volume == DefaultVolume && !MuteToggled(s).settings.isMuted
  {
  }

  /** `#onTrackEnded`. */
  function Ended(s: Session, now: nat, draw: real): (r: Session)
    requires IndexValid(s) && 0.0 <= draw < 1.0
    ensures IndexValid(r)
  {
    match EndActionOf(s)
    case Replay => Replayed(s)
    case Advance => Next(s, now, draw)
    case Stop => s.(isPlaying := false)
  }

  /** Repeat one replays the same track from the start; at the last track
      with repeat off playback stops where it is; otherwise the next track
      is loaded, and repeat all wraps from the last track to the first. */
  lemma EndedBehaviour(s: Session, now: nat, draw: real)
    requires IndexValid(s) && 0.0 <= draw < 1.0
    ensures s.settings.repeatMode == One ==>
      var r := Ended(s, now, draw);
      r.currentIndex == s.currentIndex && r.playlist == s.playlist && r.isPlaying == s.isPlaying &&
      r.issued == s.issued + [Seek(0.0), Play]
    ensures s.settings.repeatMode == Off && s.currentIndex == |s.playlist| - 1 ==>
      var r := Ended(s, now, draw);
      !r.isPlaying && r.currentIndex == s.currentIndex && r.playlist == s.playlist && r.issued == s.issued
    ensures s.settings.repeatMode == All && !s.settings.isShuffled && s.playlist != [] && s.currentIndex == |s.playlist| - 1 ==>
      Ended(s, now, draw).currentIndex == 0
    ensures s.settings.repeatMode == All ==> Ended(s, now, draw) == Next(s, now, draw)
    ensures s.settings.repeatMode != One && s.currentIndex < |s.playlist| - 1 ==>
      Ended(s, now, draw) == Next(s, now, draw)
  {
    if s.settings.repeatMode == All && !s.settings.isShuffled && s.playlist != [] && s.currentIndex == |s.playlist| - 1 {
      assert (s.currentIndex + 1) % |s.playlist| == 0;
    }
  }

  /** `playlist.find(t => t.id === trackId)`: the first track with that id. */
  function FindById(p: seq<Track>, id: string): (r: Option<nat>)
    ensures r.Some? ==> r.value < |p| && p[r.value].id == id && forall k :: 0 <= k < r.value ==> p[k].id != id
    ensures r.None? ==> forall k :: 0 <= k < |p| ==> p[k].id != id
  {
    if p == [] then None
    else if p[0].id == id then Some(0)
    else match FindById(p[1..], id)
      case None => None
      case Some(k) => Some(k + 1)
  }

  /** `toggleFavorite(trackId)`: flips the flag of the first track with that
      id; an unknown id changes nothing. */
  function FavoriteToggled(s: Session, id: string): (r: Session)
    ensures FindById(s.playlist, id).None? ==> r == s
    ensures FindById(s.playlist, id).Some? ==>
      var k := FindById(s.playlist, id).value;
      r == s.(playlist := s.playlist[k := s.playlist[k].(isFavorite := !s.playlist[k].isFavorite)])
  {
    match FindById(s.playlist, id)
    case None => s
    case Some(k) => s.(playlist := s.playlist[k := s.playlist[k].(isFavorite := !s.playlist[k].isFavorite)])
  }

  /** Two clicks on the same heart undo each other. */
  lemma FavoriteTwice(s: Session, id: string)
    ensures FavoriteToggled(FavoriteToggled(s, id), id) == s
  {
    match FindById(s.playlist, id)
    case None =>
    case Some(k) =>
      var p := FavoriteToggled(s, id).playlist;
      assert forall j :: 0 <= j < |p| ==> p[j].id == s.playlist[j].id;
      assert FindById(p, id) == Some(k) by {
        FindByIdSameIds(s.playlist, p, id);
      }
  }

  /** The search by id depends on the ids alone. */
  lemma {:induction false} FindByIdSameIds(p: seq<Track>, q: seq<Track>, id: string)
    requires |p| == |q| && forall j :: 0 <= j < |p| ==> p[j].id == q[j].id
    ensures FindById(p, id) == FindById(q, id)
  {
    if p != [] && p[0].id != id {
      FindByIdSameIds(p[1..], q[1..], id);
    }
  }

  /** The record `#createTrackFromFile` makes once the probe has loaded: the
      title and artist come from the file name, the source is the file's
      URL, an unknown duration becomes 0, and the track starts unplayed and
      not a favourite. */
  function TrackOf(f: SourceFile, id: string): (r: Track)
    ensures r.id == id && r.src == f.url
    ensures r.title == Text.ExtractTitle(f.name) && r.artist == Text.ExtractArtist(f.name)
    ensures r.duration == Clock.Num(if f.probed.Num? then f.probed.value else 0.0)
    ensures r.playCount == 0 && !r.isFavorite && r.lastPlayed == 0
  {
    Track(id, Text.ExtractTitle(f.name), Text.ExtractArtist(f.name),
      Clock.Num(DurationOrZero(f.probed)), f.url, "", 0, false, 0)
  }

  function NewTracks(files: seq<SourceFile>, ids: seq<string>): (r: seq<Track>)
    requires |ids| >= |files|
    ensures |r| == |files|
  {
    seq(|files|, k requires 0 <= k < |files| => TrackOf(files[k], ids[k]))
  }

  /** Loading the first track of a playlist that was empty. */
  lemma LoadedFresh(s: Session, made: seq<Track>)
    requires IndexValid(s) && s.playlist == [] && made != [] && made[0].playCount == 0
    ensures var r := Loaded(s.(playlist := made), 0);
      && IndexValid(r)
      && |r.playlist| == |made|
      && r.currentIndex == 0
      && r.issued == s.issued + [Load(made[0].src)]
      && r.playlist[0].playCount == 1
      && r.playlist == Played(made, 0)
      && r.isPlaying == s.isPlaying && r.settings == s.settings
  {
  }

  /** The first new track plays the first file and has not been played. */
  lemma NewTrackFirst(files: seq<SourceFile>, ids: seq<string>)
    requires files != [] && |ids| >= |files|
    ensures NewTracks(files, ids)[0].src == files[0].url
    ensures NewTracks(files, ids)[0].playCount == 0
  {
    assert NewTracks(files, ids)[0] == TrackOf(files[0], ids[0]);
  }

  /** `#processFiles`: the audio files, each given the next of `ids`, are
      appended all at once when every probe succeeded (`Promise.all`), and
      the first is loaded when the playlist was empty. */
  function Imported(s: Session, files: seq<SourceFile>, ids: seq<string>, probesOk: bool): (r: Session)
    requires IndexValid(s) && |ids| >= |files|
    ensures IndexValid(r)
    ensures AudioOnly(files) == [] || !probesOk ==> r == s
    ensures AudioOnly(files) != [] && probesOk && s.playlist != [] ==>
      r == s.(playlist := s.playlist + NewTracks(AudioOnly(files), ids))
    ensures AudioOnly(files) != [] && probesOk && s.playlist == [] ==>
      && |r.playlist| == |AudioOnly(files)|
      && r.currentIndex == 0
      && r.issued == s.issued + [Load(AudioOnly(files)[0].url)]
      && r.playlist[0].playCount == 1
      && r.playlist == Played(NewTracks(AudioOnly(files), ids), 0)
      && r.isPlaying == s.isPlaying && r.settings == s.settings
  {
    var audio := AudioOnly(files);
    if audio == [] || !probesOk then s
    else
      var made := NewTracks(audio, ids);
      var added := s.(playlist := s.playlist + made);
      if |added.playlist| == |audio| then
        assert s.playlist == [] && added.playlist == made;
        NewTrackFirst(audio, ids);
        LoadedFresh(s, made);
        Loaded(added, 0)
      else added
  }

  /** Every imported title is a cleaned file name or the fallback. */
  lemma ImportedTitlesClean(files: seq<SourceFile>, ids: seq<string>)
    requires |ids| >= |files|
    ensures forall t :: t in NewTracks(files, ids) ==>
      t.title != [] && (t.title == "Unknown Track" || Text.IsCleanText(t.title))
  {
  }

  /** `#nextTrack` of the second declaration: plain sequential order, no
      shuffle and no time stamp. */
  function SequentialNext(s: Session): (r: Session)
    requires IndexValid(s)
    ensures IndexValid(r)
    ensures s.playlist != [] ==> r.currentIndex == (s.currentIndex + 1) % |s.playlist|
  {
    if s.playlist == [] then s
    else ResumeIfPlaying(Loaded(s, (s.currentIndex + 1) % |s.playlist|))
  }

  /** `#onTrackEnded` of the second declaration: the repeat mode is ignored. */
  function SequentialEnded(s: Session): (r: Session)
    requires IndexValid(s)
    ensures IndexValid(r)
  {
    if s.currentIndex < |s.playlist| - 1 then SequentialNext(s) else s.(isPlaying := false)
  }

  /** The reduced class stops at the last track even on repeat one or all,
      where the full class replays or wraps around; and it leaves every
      `lastPlayed` stamp alone. */
  lemma SequentialIgnoresRepeat(s: Session, now: nat, draw: real)
    requires IndexValid(s) && 0.0 <= draw < 1.0 && s.playlist != []
    requires s.currentIndex == |s.playlist| - 1
    ensures !SequentialEnded(s).isPlaying && SequentialEnded(s).currentIndex == s.currentIndex
    ensures s.settings.repeatMode == All && !s.settings.isShuffled ==> Ended(s, now, draw).currentIndex == 0
    ensures s.settings.repeatMode == One ==> Ended(s, now, draw).isPlaying == s.isPlaying
    ensures forall k :: 0 <= k < |s.playlist| ==> SequentialNext(s).playlist[k].lastPlayed == s.playlist[k].lastPlayed
  {
  }

  /** The player: its private `#playlist` and `#state`, and the commands it
      has sent to its audio element. */
  class Player {
    var playlist: seq<Track>
    var currentIndex: int
    var isPlaying: bool
    var isShuffled: bool
    var repeatMode: RepeatMode
    var volume: real
    var isMuted: bool
    var issued: seq<Command>

    function State(): Session
      reads this
    {
      Session(playlist, currentIndex, isPlaying, Settings(isShuffled, repeatMode, volume, isMuted), issued)
    }

    ghost predicate Valid()
      reads this
    {
      IndexValid(State())
    }

    /** The initial `#state`, before anything is restored from storage. */
    constructor()
      ensures Valid()
      ensures State() == Session([], 0, false, Settings(false, Off, DefaultVolume, false), [])
    {
      playlist := [];
      currentIndex := 0;
      isPlaying := false;
      isShuffled := false;
      repeatMode := Off;
      volume := DefaultVolume;
      isMuted := false;
      issued := [];
    }

    method LoadTrack(index: int)
      modifies this
      ensures State() == Loaded(old(State()), index)
      ensures old(Valid()) || 0 <= index < |old(playlist)| ==> Valid()
    {
      if index < 0 || index >= |playlist| {
        return;
      }
      currentIndex := index;
      issued := issued + [Load(playlist[index].src)];
      playlist := Played(playlist, index);
    }

    method ImportTracks(files: seq<SourceFile>, ids: seq<string>, probesOk: bool)
      requires Valid() && |ids| >= |files|
      modifies this
      ensures Valid() && State() == Imported(old(State()), files, ids, probesOk)
    {
      var audio := AudioOnly(files);
      if audio == [] || !probesOk {
        return;
      }
      playlist := playlist + NewTracks(audio, ids);
      if |playlist| == |audio| {
        LoadTrack(0);
      }
    }

    method TogglePlay(playOk: bool)
      requires Valid()
      modifies this
      ensures Valid() && State() == PlayToggled(old(State()), playOk)
    {
      if playlist == [] {
        return;
      }
      if isPlaying {
        issued := issued + [Pause];
        isPlaying := false;
      } else {
        issued := issued + [Play];
        isPlaying := playOk;
      }
    }

    method PreviousTrack()
      requires Valid()
      modifies this
      ensures Valid() && State() == Previous(old(State()))
    {
      if playlist == [] {
        return;
      }
      var newIndex := currentIndex - 1;
      if newIndex < 0 {
        newIndex := |playlist| - 1;
      }
      LoadTrack(newIndex);
      if isPlaying {
        issued := issued + [Play];
      }
    }

    method NextTrack(now: nat, draw: real)
      requires Valid() && 0.0 <= draw < 1.0
      modifies this
      ensures Valid() && State() == Next(old(State()), now, draw)
    {
      if playlist == [] {
        return;
      }
      var newIndex: nat;
      if isShuffled {
        newIndex := SmartShuffle(LastPlayedOf(playlist), currentIndex, draw);
      } else {
        newIndex := (currentIndex + 1) % |playlist|;
      }
      playlist := Stamped(playlist, currentIndex, now);
      LoadTrack(newIndex);
      if isPlaying {
        issued := issued + [Play];
      }
    }

    method ToggleShuffle()
      requires Valid()
      modifies this
      ensures Valid() && State() == ShuffleToggled(old(State()))
    {
      isShuffled := !isShuffled;
    }

    method ToggleRepeat()
      requires Valid()
      modifies this
      ensures Valid() && State() == RepeatToggled(old(State()))
    {
      repeatMode := NextRepeat(repeatMode);
    }

    method SetVolume(v: real)
      requires Valid()
      modifies this
      ensures Valid() && State() == VolumeSet(old(State()), v)
    {
      volume := ClampVolume(v);
      isMuted := volume == 0.0;
      issued := issued + [Command.SetVolume(volume)];
    }

    method ToggleMute()
      requires Valid()
      modifies this
      ensures Valid() && State() == MuteToggled(old(State()))
    {
      if isMuted {
        SetVolume(if volume > 0.0 then volume else DefaultVolume);
      } else {
        isMuted := true;
        issued := issued + [Command.SetVolume(0.0)];
      }
    }

    method OnTrackEnded(now: nat, draw: real)
      requires Valid() && 0.0 <= draw < 1.0
      modifies this
      ensures Valid() && State() == Ended(old(State()), now, draw)
    {
      if repeatMode == One {
        issued := issued + [Seek(0.0), Play];
      } else if repeatMode == All || currentIndex < |playlist| - 1 {
        NextTrack(now, draw);
      } else {
        isPlaying := false;
      }
    }

    method ToggleFavorite(id: string)
      requires Valid()
      modifies this
      ensures Valid() && State() == FavoriteToggled(old(State()), id)
    {
      var found := FindById(playlist, id);
      if found.Some? {
        var k := found.value;
        playlist := playlist[k := playlist[k].(isFavorite := !playlist[k].isFavorite)];
      }
    }

    /** `#nextTrack` of the second declaration. */
    method SequentialNextTrack()
      requires Valid()
      modifies this
      ensures Valid() && State() == SequentialNext(old(State()))
    {
      if playlist == [] {
        return;
      }
      LoadTrack((currentIndex + 1) % |playlist|);
      if isPlaying {
        issued := issued + [Play];
      }
    }

    /** `#onTrackEnded` of the second declaration. */
    method SequentialOnTrackEnded()
      requires Valid()
      modifies this
      ensures Valid() && State() == SequentialEnded(old(State()))
    {
      if currentIndex < |playlist| - 1 {
        SequentialNextTrack();
      } else {
        isPlaying := false;
      }
    }
  }
}
