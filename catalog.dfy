/** The playlist as the players hold it: an ordered sequence of track
    records, with the operations on it that do not depend on a player's
    state: totals, search, removal by `splice`, sorting by title, and the
    fields written to storage. */
module Catalog {
  import opened Optional
  import opened Sorting
  import Clock
  import Text

  /** One track record. The players fill different subsets of these fields:
      the ultra-modern ones use `id`, `playCount`, `isFavorite` and
      `lastPlayed` (0 while the field is unset), the folder one `format`. */
  datatype Track = Track(
    id: string,
    title: string,
    artist: string,
    duration: Clock.Seconds,
    src: string,
    format: string,
    playCount: nat,
    isFavorite: bool,
    lastPlayed: nat)

  /** `track.duration || 0`: NaN is falsy and counts as nothing. */
  function DurationOrZero(d: Clock.Seconds): (r: real)
    ensures d.NaN? ==> r == 0.0
    ensures d.Num? ==> r == d.value
  {
    match d
    case NaN => 0.0
    case Num(v) => v
  }

  /** `playlist.reduce((sum, track) => sum + (track.duration || 0), 0)`. */
  function TotalDuration(p: seq<Track>): (r: real)
    ensures p == [] ==> r == 0.0
    ensures (forall k :: 0 <= k < |p| ==> DurationOrZero(p[k].duration) >= 0.0) ==> r >= 0.0
  {
    if p == [] then 0.0
    else TotalDuration(p[..|p| - 1]) + DurationOrZero(p[|p| - 1].duration)
  }

  /** The total of two playlists put together is the sum of their totals. */
  lemma {:induction false} TotalDurationAppend(a: seq<Track>, b: seq<Track>)
    ensures TotalDuration(a + b) == TotalDuration(a) + TotalDuration(b)
    decreases |b|
  {
    if b != [] {
      assert (a + b)[..|a + b| - 1] == a + b[..|b| - 1];
      TotalDurationAppend(a, b[..|b| - 1]);
    } else {
      assert a + b == a;
    }
  }

  /** What `updatePlaylistStats` shows: the number of tracks and the total
      time on the m:ss clock. */
  datatype Stats = Stats(count: nat, total: string)

  function PlaylistStats(p: seq<Track>): (r: Stats)
    ensures r.count == |p|
  {
    Stats(|p|, Clock.FormatTime(Clock.Num(TotalDuration(p))))
  }

  /** With no negative duration in the playlist, the total shown reads back
      as the whole seconds of the summed durations. */
  lemma StatsTotalReadsBack(p: seq<Track>)
    requires forall k :: 0 <= k < |p| ==> DurationOrZero(p[k].duration) >= 0.0
    ensures TotalDuration(p) >= 0.0
    ensures Clock.ParseClock(PlaylistStats(p).total) == Some(TotalDuration(p).Floor as nat)
  {
    Clock.FormatTimeReadsBack(TotalDuration(p));
  }

  /** A track shows its duration in the total: appending one track adds its
      duration, with NaN adding nothing. */
  lemma StatsOfAppended(p: seq<Track>, t: Track)
    ensures PlaylistStats(p + [t]).count == PlaylistStats(p).count + 1
    ensures TotalDuration(p + [t]) == TotalDuration(p) + DurationOrZero(t.duration)
  {
    assert (p + [t])[..|p + [t]| - 1] == p;
  }

  /** `s.includes(sub)`: `sub` occurs in `s` at some position. */
  predicate Includes(s: string, sub: string)
    ensures Includes(s, sub) ==> |sub| <= |s|
    ensures sub == [] ==> Includes(s, sub)
    decreases |s|
  {
    (|sub| <= |s| && s[..|sub|] == sub) || (s != [] && Includes(s[1..], sub))
  }

  /** A string includes whatever stands inside it. */
  lemma {:induction false} IncludesInfix(a: string, sub: string, b: string)
    ensures Includes(a + sub + b, sub)
    decreases |a|
  {
    var s := a + sub + b;
    if a == [] {
      assert s[..|sub|] == sub;
    } else {
      assert s[1..] == a[1..] + sub + b;
      IncludesInfix(a[1..], sub, b);
    }
  }

  /** The position at which an included string starts. */
  lemma {:induction false} IncludesAt(s: string, sub: string) returns (i: nat)
    requires Includes(s, sub)
    ensures i + |sub| <= |s| && s[i..i + |sub|] == sub
    decreases |s|
  {
    if |sub| <= |s| && s[..|sub|] == sub {
      i := 0;
    } else {
      var j := IncludesAt(s[1..], sub);
      i := j + 1;
      assert s[1..][j..j + |sub|] == s[i..i + |sub|];
    }
  }

  /** An included string stands at some position. */
  lemma IncludesHasPosition(s: string, sub: string)
    requires Includes(s, sub)
    ensures exists a, b :: s == a + sub + b
  {
    var i := IncludesAt(s, sub);
    assert s == s[..i] + sub + s[i + |sub|..];
  }

  /** The search test of `#handleSearch`: the query, lower-cased, occurs in
      the lower-cased title or artist. */
  predicate Matches(t: Track, query: string) {
    Includes(Text.Lower(t.title), Text.Lower(query)) || Includes(Text.Lower(t.artist), Text.Lower(query))
  }

  /** `playlist.filter(track => Matches(track, query))`. */
  function Search(p: seq<Track>, query: string): (r: seq<Track>)
    ensures |r| <= |p|
    ensures |p| == 1 ==> r == if Matches(p[0], query) then p else []
  {
    if p == [] then []
    else if Matches(p[0], query) then [p[0]] + Search(p[1..], query)
    else Search(p[1..], query)
  }

  /** The results are exactly the matching tracks of the playlist. */
  lemma {:induction false} SearchFinds(p: seq<Track>, query: string)
    ensures forall t :: t in Search(p, query) <==> t in p && Matches(t, query)
  {
    if p != [] {
      SearchFinds(p[1..], query);
      assert forall t :: t in p <==> t == p[0] || t in p[1..] by {
        assert p == [p[0]] + p[1..];
      }
    }
  }

  /** The filter works track by track: searching a concatenation searches each
      part and keeps the results in playlist order. */
  lemma {:induction false} SearchAppend(a: seq<Track>, b: seq<Track>, query: string)
    ensures Search(a + b, query) == Search(a, query) + Search(b, query)
  {
    if a == [] {
      assert a + b == b;
    } else {
      assert (a + b)[0] == a[0] && (a + b)[1..] == a[1..] + b;
      SearchAppend(a[1..], b, query);
    }
  }

  /** An empty query keeps the whole playlist, in order. */
  lemma {:induction false} SearchEmptyQuery(p: seq<Track>)
    ensures Search(p, "") == p
  {
    if p != [] {
      assert Text.Lower("") == "";
      SearchEmptyQuery(p[1..]);
    }
  }

  /** The playlist without the element at `i`, the others in order. */
  function RemoveAt(p: seq<Track>, i: nat): (r: seq<Track>)
    requires i < |p|
    ensures |r| == |p| - 1
    ensures forall k :: 0 <= k < i ==> r[k] == p[k]
    ensures forall k :: i <= k < |r| ==> r[k] == p[k + 1]
  {
    p[..i] + p[i + 1..]
  }

  /** Removing an element and putting it back restores the playlist. */
  lemma RemoveAtRestores(p: seq<Track>, i: nat)
    requires i < |p|
    ensures RemoveAt(p, i)[..i] + [p[i]] + RemoveAt(p, i)[i..] == p
  {
    assert RemoveAt(p, i)[..i] == p[..i];
    assert RemoveAt(p, i)[i..] == p[i + 1..];
  }

  /** Where `splice(index, 1)` starts: a negative index counts from the end,
      an index past either end is pinned to it. */
  function SpliceStart(index: int, len: nat): (r: nat)
    ensures r <= len
    ensures 0 <= index <= len ==> r == index
    ensures -(len as int) <= index < 0 ==> r as int == len as int + index
    ensures index < -(len as int) ==> r == 0
    ensures index > len ==> r == len
  {
    if index < 0 then (if len + index < 0 then 0 else len + index)
    else if index > len then len else index
  }

  /** `playlist.splice(index, 1)` for any number `index`. */
  function Splice(p: seq<Track>, index: int): (r: seq<Track>)
    ensures SpliceStart(index, |p|) < |p| ==> r == RemoveAt(p, SpliceStart(index, |p|))
    ensures SpliceStart(index, |p|) == |p| ==> r == p
  {
    var s := SpliceStart(index, |p|);
    if s < |p| then RemoveAt(p, s) else p
  }

  /** On a valid index `splice` removes exactly that element; past the end it
      removes nothing, and a negative index removes from the end. */
  lemma SpliceCases(p: seq<Track>, index: int)
    ensures 0 <= index < |p| ==> Splice(p, index) == RemoveAt(p, index)
    ensures index >= |p| ==> Splice(p, index) == p
    ensures -|p| <= index < 0 ==> Splice(p, index) == RemoveAt(p, (|p| as int + index) as nat)
  {
  }

  /** Code-unit order on strings, standing for `localeCompare(...) <= 0`. */
  predicate LexLe(a: string, b: string)
    ensures a == b ==> LexLe(a, b)
    decreases |a|
  {
    a == [] || (b != [] && (a[0] < b[0] || (a[0] == b[0] && LexLe(a[1..], b[1..]))))
  }

  lemma {:induction false} LexLeTotal(a: string, b: string)
    ensures LexLe(a, b) || LexLe(b, a)
    decreases |a|
  {
    if a != [] && b != [] && a[0] == b[0] {
      LexLeTotal(a[1..], b[1..]);
    }
  }

  /** Strings ordered both ways are equal: the order ties no two distinct titles. */
  lemma {:induction false} LexLeAntisymmetric(a: string, b: string)
    requires LexLe(a, b) && LexLe(b, a)
    ensures a == b
    decreases |a|
  {
    if a != [] {
      LexLeAntisymmetric(a[1..], b[1..]);
      assert a == [a[0]] + a[1..] && b == [b[0]] + b[1..];
    }
  }

  lemma {:induction false} LexLeTransitive(a: string, b: string, c: string)
    requires LexLe(a, b) && LexLe(b, c)
    ensures LexLe(a, c)
    decreases |a|
  {
    if a != [] && b != [] && c != [] && a[0] == b[0] && b[0] == c[0] {
      LexLeTransitive(a[1..], b[1..], c[1..]);
    }
  }

  /** The comparator of the title sort: by title, other fields ignored. */
  function TitleLe(a: Track, b: Track): bool {
    LexLe(a.title, b.title)
  }

  lemma TitleLeIsTotalPreorder()
    ensures IsTotalPreorder(TitleLe)
  {
    forall a: Track, b: Track ensures TitleLe(a, b) || TitleLe(b, a) {
      LexLeTotal(a.title, b.title);
    }
    forall a: Track, b: Track, c: Track | TitleLe(a, b) && TitleLe(b, c) ensures TitleLe(a, c) {
      LexLeTransitive(a.title, b.title, c.title);
    }
  }

  /** The elements of `p` in the order the positions `perm` list them. */
  function Permute(p: seq<Track>, perm: seq<nat>): (r: seq<Track>)
    requires InBounds(perm, |p|)
    ensures |r| == |perm|
    ensures forall k :: 0 <= k < |perm| ==> r[k] == p[perm[k]]
  {
    seq(|perm|, k requires 0 <= k < |perm| => p[perm[k]])
  }

  /** The order `playlist.sort((a, b) => a.title.localeCompare(b.title))`
      puts the positions of the playlist in (the sort is stable). */
  function TitleOrder(p: seq<Track>): (perm: seq<nat>)
    ensures |perm| == |p| && InBounds(perm, |p|)
  {
    SortIndices(p, TitleLe)
  }

  /** The sorted playlist. */
  function SortByTitle(p: seq<Track>): (r: seq<Track>)
    ensures |r| == |p|
  {
    Permute(p, TitleOrder(p))
  }

  /** The title order lists every position once, so the sorted playlist
      holds each track of the playlist exactly once (`Permute`), with
      non-decreasing titles; tracks with equal titles keep their original
      order, as `Array.prototype.sort` is stable. */
  lemma SortByTitleCorrect(p: seq<Track>)
    ensures IsPermutation(TitleOrder(p), |p|)
    ensures var r := SortByTitle(p);
      forall a, b :: 0 <= a < b < |r| ==> LexLe(r[a].title, r[b].title)
    ensures var r := SortByTitle(p); var o := TitleOrder(p);
      forall a, b :: 0 <= a < b < |r| && r[a].title == r[b].title ==> o[a] < o[b]
  {
    TitleLeIsTotalPreorder();
    SortIndicesCorrect(p, TitleLe);
  }

  /** The position where `v` stands in `perm`, or |perm| if nowhere. */
  function FindIndexOf(perm: seq<nat>, v: nat): (k: nat)
    ensures k <= |perm|
    ensures k < |perm| ==> perm[k] == v
    ensures k == |perm| ==> v !in perm
    ensures forall j :: 0 <= j < k ==> perm[j] != v
  {
    if perm == [] then 0
    else if perm[0] == v then 0
    else 1 + FindIndexOf(perm[1..], v)
  }

  /** Every position occurs in the title order, so the track current
      before the sort is found again after it. */
  lemma TitleOrderFinds(p: seq<Track>, i: nat)
    requires i < |p|
    ensures FindIndexOf(TitleOrder(p), i) < |p|
    ensures SortByTitle(p)[FindIndexOf(TitleOrder(p), i)] == p[i]
  {
    PermutationCovers(TitleOrder(p), |p|, i);
  }

  /** Sorting by title loses no track: each track of the playlist is in the
      sorted one, at the position where the title order lists it. */
  lemma SortByTitleSameTracks(p: seq<Track>)
    ensures forall j :: 0 <= j < |p| ==> p[j] in SortByTitle(p)
    ensures forall k :: 0 <= k < |p| ==> SortByTitle(p)[k] == p[TitleOrder(p)[k]]
  {
    forall j | 0 <= j < |p| ensures p[j] in SortByTitle(p) {
      TitleOrderFinds(p, j);
    }
  }

  /** The files' tracks in title order are exactly the tracks made from the
      files. */
  lemma SortedTracksAreTheFiles(files: seq<SourceFile>, make: SourceFile -> Track)
    ensures forall j :: 0 <= j < |files| ==> make(files[j]) in SortByTitle(TracksOf(files, make))
    ensures var p := SortByTitle(TracksOf(files, make));
      forall k :: 0 <= k < |p| ==> exists j :: 0 <= j < |files| && p[k] == make(files[j])
  {
    var tracks := TracksOf(files, make);
    var p := SortByTitle(tracks);
    SortByTitleSameTracks(tracks);
    forall j | 0 <= j < |files| ensures make(files[j]) in p {
      TracksOfPositions(files, make, j);
      assert tracks[j] in p;
    }
    forall k | 0 <= k < |p| ensures exists j :: 0 <= j < |files| && p[k] == make(files[j]) {
      var j := TitleOrder(tracks)[k];
      TracksOfPositions(files, make, j);
      assert p[k] == tracks[j];
    }
  }

  /** The fields `saveData` of the ocean player writes for each track. */
  datatype SavedTrack = SavedTrack(title: string, artist: string, duration: Clock.Seconds, src: string)

  function Save(p: seq<Track>): (r: seq<SavedTrack>)
    ensures |r| == |p|
    ensures forall k :: 0 <= k < |p| ==>
      r[k].title == p[k].title && r[k].artist == p[k].artist &&
      r[k].duration == p[k].duration && r[k].src == p[k].src
  {
    seq(|p|, k requires 0 <= k < |p| => SavedTrack(p[k].title, p[k].artist, p[k].duration, p[k].src))
  }

  /** A saved record read back as a track: the other fields are absent. */
  function Restore(s: seq<SavedTrack>): (r: seq<Track>)
    ensures |r| == |s|
  {
    seq(|s|, k requires 0 <= k < |s| => Track("", s[k].title, s[k].artist, s[k].duration, s[k].src, "", 0, false, 0))
  }

  /** A reload keeps the saved fields: saving the restored playlist writes
      the same records again. */
  lemma SaveRestoreSave(p: seq<Track>)
    ensures Save(Restore(Save(p))) == Save(p)
  {
  }

  /** A file chosen for import, as the players see it once probed: its name,
      its MIME type, the folders between the chosen root and the file (joined
      with '/'), the object URL made for it, and the duration the probe
      reported (0 when the probe failed). */
  datatype SourceFile = SourceFile(name: string, mimeType: string, folderName: string, url: string, probed: Clock.Seconds)

  predicate StartsWith(s: string, prefix: string) {
    |prefix| <= |s| && s[..|prefix|] == prefix
  }

  predicate IsAudio(f: SourceFile)
    ensures IsAudio(f) ==> |f.mimeType| >= 6 && f.mimeType[5] == '/'
    ensures f.mimeType == "audio/mpeg" ==> IsAudio(f)
  {
    StartsWith(f.mimeType, "audio/")
  }

  /** `files.filter(file => file.type.startsWith('audio/'))`. */
  function AudioOnly(files: seq<SourceFile>): (r: seq<SourceFile>)
    ensures |r| <= |files|
    ensures forall f :: f in r <==> f in files && IsAudio(f)
    ensures |files| == 1 ==> r == if IsAudio(files[0]) then files else []
  {
    if files == [] then []
    else
      assert forall f :: f in files <==> f == files[0] || f in files[1..] by {
        assert files == [files[0]] + files[1..];
      }
      if IsAudio(files[0]) then [files[0]] + AudioOnly(files[1..]) else AudioOnly(files[1..])
  }

  /** The filter keeps the audio files of each part, in file order. */
  lemma {:induction false} AudioOnlyAppend(a: seq<SourceFile>, b: seq<SourceFile>)
    ensures AudioOnly(a + b) == AudioOnly(a) + AudioOnly(b)
  {
    if a == [] {
      assert a + b == b;
    } else {
      assert (a + b)[0] == a[0] && (a + b)[1..] == a[1..] + b;
      AudioOnlyAppend(a[1..], b);
    }
  }

  /** One track per file, made by `make`, in the order of the files. */
  function TracksOf(files: seq<SourceFile>, make: SourceFile -> Track): (r: seq<Track>)
    ensures |r| == |files|
  {
    if files == [] then [] else TracksOf(files[..|files| - 1], make) + [make(files[|files| - 1])]
  }

  /** Each track is made from the file at its own position. */
  lemma {:induction false} TracksOfPositions(files: seq<SourceFile>, make: SourceFile -> Track, k: nat)
    requires k < |files|
    ensures TracksOf(files, make)[k] == make(files[k])
  {
    if k < |files| - 1 {
      TracksOfPositions(files[..|files| - 1], make, k);
    }
  }

  /** The import loop: `for (const file of files) playlist.push(make(file))`,
      collecting the pushed tracks. */
  method BuildTracks(files: seq<SourceFile>, make: SourceFile -> Track) returns (tracks: seq<Track>)
    ensures tracks == TracksOf(files, make)
  {
    tracks := [];
    var i := 0;
    while i < |files|
      invariant 0 <= i <= |files|
      invariant tracks == TracksOf(files[..i], make)
    {
      assert files[..i + 1][..i] == files[..i];
      tracks := tracks + [make(files[i])];
      i := i + 1;
    }
    assert files[..i] == files;
  }
}
