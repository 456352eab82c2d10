/** `FolderMusicPlayer` (folder-music-player/script.js): a player fed a whole
    folder at a time, whose playlist is sorted by title, whose shuffle is a
    uniform random pick and whose mute only flips a flag. */
module Folder {
  import opened Optional
  import opened Policy
  import opened Sorting
  import opened Catalog
  import opened Transport
  import opened Sessions
  import opened Plain
  import Clock
  import Text

  const DefaultVolume: real := 0.7

  /** `config.supportedFormats`. */
  const SupportedFormats: seq<string> := [".mp3", ".wav", ".ogg", ".m4a", ".aac", ".flac", ".wma"]

  predicate EndsWith(s: string, suffix: string) {
    |suffix| <= |s| && s[|s| - |suffix|..] == suffix
  }

  /** `supportedFormats.some(format => file.name.toLowerCase().endsWith(format))`. */
  predicate IsSupported(f: SourceFile)
    ensures IsSupported(f) ==> |f.name| >= 4
  {
    exists format :: format in SupportedFormats && EndsWith(Text.Lower(f.name), format)
  }

  /** The extension test ignores case: an upper-case `.MP3` is kept. */
  lemma UpperCaseExtensionSupported(f: SourceFile)
    requires f.name == "Song.MP3"
    ensures IsSupported(f)
  {
    var lower := Text.Lower(f.name);
    assert |lower| == 8;
    assert lower[4] == '.' && lower[5] == 'm' && lower[6] == 'p' && lower[7] == '3';
    assert lower[8 - 4..] == ".mp3";
    assert ".mp3" in SupportedFormats && EndsWith(lower, ".mp3");
  }

  /** The files the folder scan keeps, in order. */
  function SupportedOnly(files: seq<SourceFile>): (r: seq<SourceFile>)
    ensures |r| <= |files|
    ensures forall f :: f in r <==> f in files && IsSupported(f)
    ensures |files| == 1 ==> r == if IsSupported(files[0]) then files else []
  {
    if files == [] then []
    else
      assert forall f :: f in files <==> f == files[0] || f in files[1..] by {
        assert files == [files[0]] + files[1..];
      }
      if IsSupported(files[0]) then [files[0]] + SupportedOnly(files[1..]) else SupportedOnly(files[1..])
  }

  /** The scan keeps the supported files of each part, in file order. */
  lemma {:induction false} SupportedOnlyAppend(a: seq<SourceFile>, b: seq<SourceFile>)
    ensures SupportedOnly(a + b) == SupportedOnly(a) + SupportedOnly(b)
  {
    if a == [] {
      assert a + b == b;
    } else {
      assert (a + b)[0] == a[0] && (a + b)[1..] == a[1..] + b;
      SupportedOnlyAppend(a[1..], b);
    }
  }

  /** The record `createTrackFromFile` makes: title and artist from the file
      and folder names, format from the extension. */
  function TrackOf(f: SourceFile): (r: Track)
    ensures r.title == Text.TitleOr(f.name, "Titre Inconnu")
    ensures r.artist == Text.FolderArtist(f.folderName, f.name)
    ensures r.format == Text.Upper(Text.LastSegment(f.name)) && r.src == f.url
    ensures r.duration == Clock.Num(if f.probed.Num? then f.probed.value else 0.0)
  {
    Track("", Text.TitleOr(f.name, "Titre Inconnu"), Text.FolderArtist(f.folderName, f.name),
      Clock.Num(DurationOrZero(f.probed)), f.url, Text.FileFormat(f.name), 0, false, 0)
  }

  /** `sortPlaylist`: the playlist in title order, the current index moved to
      wherever the current track went (-1 if it were not found). */
  function Sorted(s: Session): (r: Session)
    requires IndexValid(s)
    ensures IndexValid(r)
    ensures s.playlist == [] ==> r == s
  {
    if s.playlist == [] then s
    else
      var order := TitleOrder(s.playlist);
      var k := FindIndexOf(order, s.currentIndex);
      TitleOrderFinds(s.playlist, s.currentIndex);
      s.(playlist := Permute(s.playlist, order), currentIndex := if k < |order| then k else -1)
  }

  /** After sorting, the titles are in order, the playlist holds the same
      tracks, each once, and the same track is current. */
  lemma SortedKeepsCurrent(s: Session)
    requires IndexValid(s) && s.playlist != []
    ensures var r := Sorted(s);
      && IsPermutation(TitleOrder(s.playlist), |s.playlist|)
      && r.playlist == Permute(s.playlist, TitleOrder(s.playlist))
      && (forall a, b :: 0 <= a < b < |r.playlist| ==> LexLe(r.playlist[a].title, r.playlist[b].title))
      && r.playlist[r.currentIndex] == s.playlist[s.currentIndex]
      && r.isPlaying == s.isPlaying && r.settings == s.settings && r.issued == s.issued
  {
    SortByTitleCorrect(s.playlist);
    TitleOrderFinds(s.playlist, s.currentIndex);
  }

  /** `handleFolderSelection`, given every selected file, the name of the
      chosen folder and the outcome of each probe: nothing when no file was
      chosen; otherwise the folder is remembered, and when some file has a
      supported extension the playlist becomes those files' tracks in title
      order, the first of them loaded. */
  function Selected(s: Session, files: seq<SourceFile>): (r: Session)
    ensures files == [] || SupportedOnly(files) == [] ==> r == s
    ensures SupportedOnly(files) != [] ==>
      && r.playlist == SortByTitle(TracksOf(SupportedOnly(files), TrackOf))
      && r.currentIndex == 0
      && r.issued == s.issued + [Load(r.playlist[0].src)]
      && r.isPlaying == s.isPlaying && r.settings == s.settings
    ensures IndexValid(s) ==> IndexValid(r)
  {
    var audio := SupportedOnly(files);
    if audio == [] then s
    else Loaded(s.(playlist := SortByTitle(TracksOf(audio, TrackOf))), 0)
  }

  /** The folder's playlist comes out in title order, with one track per
      supported file. */
  lemma SelectedInTitleOrder(s: Session, files: seq<SourceFile>)
    requires SupportedOnly(files) != []
    ensures var p := Selected(s, files).playlist;
      |p| == |SupportedOnly(files)| &&
      forall a, b :: 0 <= a < b < |p| ==> LexLe(p[a].title, p[b].title)
  {
    SortByTitleCorrect(TracksOf(SupportedOnly(files), TrackOf));
  }

  class Player {
    var playlist: seq<Track>
    var currentIndex: int
    var isPlaying: bool
    var isShuffled: bool
    var repeatMode: RepeatMode
    var volume: real
    var isMuted: bool
    var currentFolder: Option<string>
    var issued: seq<Command>

    function State(): Session
      reads this
    {
      Session(playlist, currentIndex, isPlaying, Settings(isShuffled, repeatMode, volume, isMuted), issued)
    }

    ghost predicate Valid()
      reads this
    {
      IndexValid(State())
    }

    constructor()
      ensures Valid() && currentFolder == None
      ensures State() == Session([], 0, false, Settings(false, Off, DefaultVolume, false), [])
    {
      playlist := [];
      currentIndex := 0;
      isPlaying := false;
      isShuffled := false;
      repeatMode := Off;
      volume := DefaultVolume;
      isMuted := false;
      currentFolder := None;
      issued := [];
    }

    method LoadTrack(index: int)
      modifies this
      ensures State() == Loaded(old(State()), index) && currentFolder == old(currentFolder)
      ensures old(Valid()) || 0 <= index < |old(playlist)| ==> Valid()
    {
      if index < 0 || index >= |playlist| {
        return;
      }
      currentIndex := index;
      issued := issued + [Load(playlist[index].src)];
    }

    /** Puts `p` in place of the playlist, leaving the rest as it was. */
    method ReplacePlaylist(p: seq<Track>)
      modifies this
      ensures State() == old(State()).(playlist := p)
      ensures currentFolder == old(currentFolder)
    {
      playlist := p;
    }

    /** `handleFolderSelection`; `folder` is the first segment of the first
        file's relative path. */
    method SelectFolder(files: seq<SourceFile>, folder: string)
      requires Valid()
      modifies this
      ensures Valid() && State() == Selected(old(State()), files)
      ensures currentFolder == if files == [] then old(currentFolder) else Some(folder)
    {
      if files == [] {
        return;
      }
      currentFolder := Some(folder);
      var audio := SupportedOnly(files);
      if audio == [] {
        return;
      }
      ghost var s := State();
      var tracks := BuildTracks(audio, TrackOf);
      ReplacePlaylist(SortByTitle(tracks));
      assert Selected(s, files) == Loaded(s.(playlist := playlist), 0);
      LoadTrack(0);
    }

    method TogglePlay(playOk: bool)
      requires Valid()
      modifies this
      ensures Valid() && State() == PlayToggled(old(State()), playOk) && currentFolder == old(currentFolder)
    {
      if playlist == [] {
        return;
      }
      if isPlaying {
        issued := issued + [Pause];
        isPlaying := false;
      } else {
        issued := issued + [Play];
        isPlaying := playOk;
      }
    }

    method PreviousTrack()
      requires Valid()
      modifies this
      ensures Valid() && State() == Previous(old(State())) && currentFolder == old(currentFolder)
    {
      if playlist == [] {
        return;
      }
      var newIndex := currentIndex - 1;
      if newIndex < 0 {
        newIndex := |playlist| - 1;
      }
      LoadTrack(newIndex);
      if isPlaying {
        issued := issued + [Play];
      }
    }

    method NextTrack(draw: real)
      requires Valid() && 0.0 <= draw < 1.0
      modifies this
      ensures Valid() && State() == Next(old(State()), draw) && currentFolder == old(currentFolder)
    {
      if playlist == [] {
        return;
      }
      var newIndex;
      if isShuffled {
        newIndex := RandomIndex(draw, |playlist|);
      } else {
        newIndex := currentIndex + 1;
        if newIndex >= |playlist| {
          newIndex := 0;
        }
      }
      LoadTrack(newIndex);
      if isPlaying {
        issued := issued + [Play];
      }
    }

    method ToggleShuffle()
      requires Valid()
      modifies this
      ensures Valid() && State() == ShuffleToggled(old(State())) && currentFolder == old(currentFolder)
    {
      isShuffled := !isShuffled;
    }

    method ToggleRepeat()
      requires Valid()
      modifies this
      ensures Valid() && State() == RepeatToggled(old(State())) && currentFolder == old(currentFolder)
    {
      repeatMode := NextRepeat(repeatMode);
    }

    method SortPlaylist()
      requires Valid()
      modifies this
      ensures Valid() && State() == Sorted(old(State())) && currentFolder == old(currentFolder)
    {
      if playlist == [] {
        return;
      }
      ghost var s := State();
      var current := currentIndex;
      var order := TitleOrder(playlist);
      TitleOrderFinds(playlist, current);
      playlist := Permute(playlist, order);
      var k := FindIndexOf(order, current);
      currentIndex := if k < |order| then k else -1;
      assert State() == s.(playlist := playlist, currentIndex := currentIndex);
    }

    method ClearPlaylist(confirmed: bool)
      requires Valid()
      modifies this
      ensures Valid() && State() == Cleared(old(State()), confirmed)
      ensures currentFolder == if old(playlist) != [] && confirmed then None else old(currentFolder)
    {
      if playlist == [] {
        return;
      }
      if confirmed {
        playlist := [];
        currentIndex := 0;
        currentFolder := None;
        issued := issued + [Unload];
        isPlaying := false;
      }
    }

    method OnTrackEnded(draw: real)
      requires Valid() && 0.0 <= draw < 1.0
      modifies this
      ensures Valid() && State() == Ended(old(State()), draw) && currentFolder == old(currentFolder)
    {
      if repeatMode == One {
        issued := issued + [Seek(0.0), Play];
      } else if repeatMode == All || currentIndex < |playlist| - 1 {
        NextTrack(draw);
      } else {
        isPlaying := false;
      }
    }

    method OnVolumeChange(slider: real)
      requires Valid()
      modifies this
      ensures Valid() && State() == VolumeChanged(old(State()), slider) && currentFolder == old(currentFolder)
    {
      var v := slider / 100.0;
      if v < 0.0 || v > 1.0 {
        return;
      }
      issued := issued + [Command.SetVolume(v)];
      volume := v;
      isMuted := v == 0.0;
    }

    method ToggleMute()
      requires Valid()
      modifies this
      ensures Valid() && State() == MuteToggled(old(State())) && currentFolder == old(currentFolder)
    {
      isMuted := !isMuted;
      if isMuted {
        issued := issued + [Command.SetVolume(0.0)];
      } else {
        issued := issued + [Command.SetVolume(volume)];
      }
    }
  }
}
