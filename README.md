# Music players: a verified model of the playback session

This repository holds five browser music players that are near-duplicates of one another:

- `UltraModernMusicPlayer`, declared first in `ultra-modern-player/script.js` and copied line for line into `Music_player/ultra-modern-player/script.js`;
- `FolderMusicPlayer` (`folder-music-player/script.js`);
- `OceanMusicPlayer` (`ocean-music-player/script.js`);
- `ModernAudioPlayer`, the linjunjie player (`Music_player/linjunjie_player/script.js`).

Each keeps a playlist of track records and a `state` record: the current index, whether it is playing, shuffle, the repeat mode, the volume and mute. Each also drives an HTML audio element. This Dafny project models that session state machine and the pure helpers around it. The helpers turn file names into titles, artists and format labels, and show durations as `m:ss`.

Layout:

- `Transport` (`transport.dfy`) is the audio element, seen as the list of commands the player has sent to it. The commands are load, unload, play, pause, seek, set the volume and set mute. `Source` recovers the element's `src` from that list.
- `Sessions` (`session.dfy`) is the session value shared by every player. It has the playlist, `currentIndex`, `isPlaying`, the settings and the issued commands. It also holds the operations that several players share:
  - `ShuffleToggled`, the shuffle toggle of all four players;
  - `RepeatToggled`, the repeat toggle (none, one, all) of the ultra-modern, folder and ocean players; the linjunjie player cycles the other way (`Linjunjie.RepeatPressed`);
  - `PlayToggled`, the `togglePlay` of the ultra-modern and folder players; the ocean player resumes first (`Ocean.PlayToggledAfterResume`) and the linjunjie player has its own (`Linjunjie.PlayPressed`);
  - `EndActionOf`, the choice between replay, advance and stop on `onTrackEnded`, used by the first ultra-modern declaration, the folder and ocean players, and the linjunjie player; on stop the linjunjie player leaves the session as it is, and the second ultra-modern declaration has its own end handling (`UltraModern.SequentialEnded`).
- `Policy` (`policy.dfy`) holds the decisions on plain values:
  - the repeat cycles;
  - index wrap-around, with JavaScript's `%`;
  - `Math.max(0, Math.min(1, v))`;
  - the `Math.floor(Math.random() * n)` pick;
  - the smart shuffle of the ultra-modern player.
- `Sorting` (`sorting.dfy`) is a stable sort of positions by a key. It stands for `Array.prototype.sort` with a comparator, and is proved sorted and a permutation.
- `Catalog` (`catalog.dfy`) covers:
  - the `Track` record;
  - the total duration and playlist stats;
  - the search filter;
  - `splice(index, 1)`;
  - the title sort;
  - the fields `saveData` writes;
  - the audio-file filter and the track-building loop.
- `Clock` (`clock.dfy`) is `formatTime`. JavaScript's `Math.floor`, truncating `%`, `toString` and `padStart` are written out. A parser reads the text back.
- `Text` (`text.dfy`) is `extractTitle`, `extractArtist` and `getFileFormat`. Each regular expression is written as an explicit scan.
- `Plain` (`plain.dfy`) holds the operations the folder and ocean players implement identically:
  - `loadTrack`, `previousTrack`;
  - `nextTrack` with a uniform shuffle;
  - `onTrackEnded`, `resetPlayer`, `clearPlaylist`;
  - `onVolumeChange`, `toggleMute`.
- `UltraModern`, `Folder`, `Ocean` and `Linjunjie` have one module per player. Each gives its own operations as functions from one session to the next, with lemmas about them. Each has a `Player` class whose fields are the session, and whose methods update those fields in place. Every method's postcondition ties the new state to the specification function applied to the old state, so the lemmas about the functions hold of the class.

Randomness, the clock and the outcome of asynchronous calls become parameters:

- `Math.random()` is a `draw` in [0, 1);
- `Date.now()` is a natural number `now`;
- the result of `audio.play()` is `playOk`;
- the linjunjie player's `audio.paused` is `paused`;
- the audio-context resume is `resumeOk`;
- a probed file carries the duration its probe reported.

Behaviour of the code that the model keeps, which a reader might not expect:

- `ultra-modern-player/script.js` declares `class UltraModernMusicPlayer` a second time, at line 1814. A JavaScript engine rejects that redeclaration. The model follows the first declaration. The second declaration's `#nextTrack` and `#onTrackEnded`, which are sequential and ignore repeat and shuffle, appear as the variant `SequentialNext` / `SequentialEnded`.
- The folder and ocean players assign `audio.volume` before updating `state`. That assignment throws outside [0, 1], so a slider value outside 0..100 changes nothing.
- The linjunjie player has no index guard:
  - `loadTrack` sets the index and then throws (`track.src` of `undefined`) when the index is outside a non-empty playlist;
  - removing the only track leaves the index at -1;
  - `previousTrack` from -1 keeps going down.
  The model keeps this behaviour (`LoadThrows`, `StrayIndexAfterRemoval`, `PreviousFromNegativeDrifts`).
- The linjunjie repeat button cycles none, all, one, the reverse of the other players.
- Only the linjunjie `formatTime` lets a zero through its guard. Zero still renders as `0:00`.

## Model

| member | source | states |
|---|---|---|
| Transport.Source | Music_player/linjunjie_player/script.js:380 | the element's `src` is empty until something is loaded |
| Transport.SourceIsLastLoad | Music_player/linjunjie_player/script.js:353-363 | the `src` is that of the last load when no later command loads or unloads |
| Transport.SourceSkipsPlayback | Music_player/linjunjie_player/script.js:379-396 | play, pause, seek and volume commands leave the `src` unchanged |
| Sessions.Issue | ultra-modern-player/script.js:1016-1017 | sending commands appends them to the element's log and changes nothing else in the session |
| Sessions.ResumeIfPlaying | ultra-modern-player/script.js:1070-1072 | after a track change a playing session sends one more `play()` and a paused one sends nothing; no other field changes and the element keeps its `src` |
| Sessions.Replayed | ultra-modern-player/script.js:1222-1224 | repeat one rewinds to 0 and plays again: exactly those two commands are sent, nothing else in the session changes and the `src` stays |
| Sessions.ShuffleToggled | ultra-modern-player/script.js:1108-1118 | `toggleShuffle` flips the flag and changes nothing else |
| Sessions.ShuffleTwice | folder-music-player/script.js:415-420 | two shuffle toggles restore the session |
| Sessions.RepeatToggled | folder-music-player/script.js:422-437 | `toggleRepeat` moves the mode one step along none, one, all and changes nothing else |
| Sessions.RepeatThrice | ultra-modern-player/script.js:1120-1123 | three repeat presses restore the session, and one press always changes it |
| Sessions.EndActionOf | ultra-modern-player/script.js:1221-1231 | `onTrackEnded` replays on repeat one, advances on repeat all or before the last track, and stops otherwise, each condition an if-and-only-if |
| Sessions.PlayToggled | Music_player/ultra-modern-player/script.js:504-529 | `togglePlay` does nothing on an empty playlist, pauses a playing session, and otherwise sets `isPlaying` to whether `play()` resolved |
| Sessions.RejectedPlayKeepsState | Music_player/ultra-modern-player/script.js:512-528 | a rejected `play()` leaves `isPlaying` and every other field as they were |
| Policy.IndexOf | ultra-modern-player/script.js:1122 | `modes.indexOf(m)` is the first position of `m`, or -1 when absent |
| Policy.NextRepeat | ultra-modern-player/script.js:1120-1123 | the repeat order none, one, all, none |
| Policy.NextRepeatReversed | Music_player/linjunjie_player/script.js:434-437 | the linjunjie repeat order none, all, one, none |
| Policy.RepeatCycleHasPeriodThree | folder-music-player/script.js:422-425 | both cycles return after three presses, and neither stays put after one or two presses |
| Policy.ReversedCycleUndoes | Music_player/linjunjie_player/script.js:435 | the linjunjie cycle is the inverse of the others' cycle |
| Policy.JsRem | Music_player/linjunjie_player/script.js:418 | JavaScript's `%` takes the sign of the dividend and stays strictly between -n and n |
| Policy.WrapNext | folder-music-player/script.js:402-405 | the explicit wrap is `(i + 1) mod n` on valid indices |
| Policy.WrapPrev | folder-music-player/script.js:385-388 | the explicit wrap is `(i - 1 + n) mod n` on valid indices |
| Policy.PrevFromZero | Music_player/linjunjie_player/script.js:401-403 | the linjunjie step agrees with the wrap on valid indices and moves further down from a negative index |
| Policy.NextPrevInverse | ocean-music-player/script.js:468-499 | next and previous undo each other on valid indices, and the JavaScript `%` form agrees with the explicit wrap |
| Policy.ClampVolume | Music_player/linjunjie_player/script.js:454 | the clamp lies in [0, 1], is the identity inside it and pins values outside it to the nearer end |
| Policy.ClampIdempotent | ultra-modern-player/script.js:1145 | clamping twice is clamping once |
| Policy.RandomIndex | folder-music-player/script.js:400 | `Math.floor(Math.random() * n)` is an index in [0, n) |
| Policy.EveryIndexDrawable | folder-music-player/script.js:400 | every index in [0, n) is drawn by some `Math.random()` value, so the uniform pick can hit any track |
| Policy.MoreRecentIsTotalPreorder | ultra-modern-player/script.js:1084 | the comparator `b.lastPlayed - a.lastPlayed` orders consistently |
| Policy.RecentIndices | ultra-modern-player/script.js:1082-1086 | the avoided indices number `Math.min(5, n - 1)` and are positions of the playlist |
| Policy.RecentAreLatest | ultra-modern-player/script.js:1082-1086 | the avoided indices are distinct, and each was left no earlier than any index not avoided |
| Policy.Candidates | ultra-modern-player/script.js:1088-1089 | the candidates are exactly the indices below n that are neither current nor recent, in increasing order |
| Policy.CandidatesDropOne | ultra-modern-player/script.js:1089 | excluding one more index removes at most one candidate |
| Policy.CandidatesAvoidOne | ultra-modern-player/script.js:1089 | excluding the current index alone removes at most one candidate |
| Policy.CandidatesCount | ultra-modern-player/script.js:1088-1089 | at least n - 1 - (number of recent indices) candidates remain |
| Policy.SmartShuffle | ultra-modern-player/script.js:1080-1093 | the pick is a valid index; it is a candidate (neither current nor recent) when one exists, and `(current + 1) mod n` otherwise |
| Policy.ShuffleAvoidsCurrentFromSeven | Music_player/ultra-modern-player/script.js:551-564 | from seven tracks on, the shuffle never repeats the current track nor picks a recent one |
| Policy.ShuffleSingleTrack | ultra-modern-player/script.js:1091-1093 | with one track there is no candidate and the fallback stays on it |
| Sorting.Range | ultra-modern-player/script.js:1088 | `Array.from({length: n}, (_, i) => i)` lists 0 to n - 1 in order |
| Sorting.Insert | ultra-modern-player/script.js:1084 | one insertion step keeps positions in bounds and adds one element |
| Sorting.InsertCount | ultra-modern-player/script.js:1084 | an insertion adds exactly the inserted position to the multiset |
| Sorting.SortPrefix | folder-music-player/script.js:445 | sorting the first m positions gives m positions in bounds |
| Sorting.SortPrefixCount | folder-music-player/script.js:445 | sorting the first m positions gives exactly the positions 0 to m - 1 |
| Sorting.RangeGrows | ultra-modern-player/script.js:1088 | the positions below m are those below m - 1 plus m - 1 |
| Sorting.SortIndices | ultra-modern-player/script.js:1083-1084 | the sort returns exactly the positions of the array, each once |
| Sorting.InsertAbove | ultra-modern-player/script.js:1084 | inserting keeps a lower bound that holds for every key already in place and for the inserted key |
| Sorting.InsertSorted | ultra-modern-player/script.js:1084 | inserting into a sorted order keeps it sorted |
| Sorting.SortPrefixSorted | folder-music-player/script.js:445 | every sorted prefix is in comparator order |
| Sorting.InsertMembers | folder-music-player/script.js:445 | an insertion holds only the inserted position and the positions already there |
| Sorting.InsertStable | folder-music-player/script.js:445 | inserting a position larger than all present after its equal keys keeps equal keys in original order |
| Sorting.SortPrefixStable | folder-music-player/script.js:445 | every sorted prefix keeps positions with equal keys in their original order |
| Sorting.SortPrefixBelow | folder-music-player/script.js:445 | sorting the first m positions yields only positions below m |
| Sorting.StableCons | folder-music-player/script.js:445 | putting a position in front of a stable order keeps it stable when it is below every later position whose key is at most its own |
| Sorting.InsertKeepsAfter | folder-music-player/script.js:445 | inserting keeps a position below every later one whose key is at most its own |
| Sorting.InsertStableBehind | folder-music-player/script.js:445 | when the inserted position passes the first one, that one stays first and the result is stable |
| Sorting.BelowFirstBelowAll | folder-music-player/script.js:445 | a key below the first of a sorted order is below all of them |
| Sorting.SortPrefixStep | folder-music-player/script.js:445 | one insertion step keeps a sorted prefix stable |
| Sorting.SortIndicesCorrect | folder-music-player/script.js:445 | for a total preorder, the result is a permutation of the positions, is in comparator order, and keeps positions with equal keys in their original order (a stable sort) |
| Sorting.RangeCount | ultra-modern-player/script.js:1088 | each position below n occurs once among 0 to n - 1, and no other value occurs |
| Sorting.CountAppend | ultra-modern-player/script.js:1088 | appending a value adds one occurrence of it and none of anything else |
| Sorting.PermutationOfRange | folder-music-player/script.js:445 | a permutation of the positions holds each position exactly once |
| Sorting.PermutationCovers | folder-music-player/script.js:448 | every position is found somewhere in a permutation, so `findIndex` after the sort succeeds |
| Catalog.DurationOrZero | folder-music-player/script.js:327 | `track.duration \|\| 0`: NaN counts as 0 and a number as itself |
| Catalog.TotalDuration | folder-music-player/script.js:327 | the `reduce` total is 0 for an empty playlist and never negative when no duration is |
| Catalog.TotalDurationAppend | folder-music-player/script.js:327 | the total of two playlists put together is the sum of their totals |
| Catalog.PlaylistStats | folder-music-player/script.js:326-330 | the stats count every track of the playlist |
| Catalog.StatsTotalReadsBack | folder-music-player/script.js:326-330 | the total shown reads back as the whole seconds of the summed durations |
| Catalog.StatsOfAppended | Music_player/linjunjie_player/script.js:550-554 | one more track adds one to the count and its duration, with NaN as 0, to the total |
| Catalog.Includes | Music_player/ultra-modern-player/script.js:660-661 | `includes` finds the empty string in every string and nothing longer than the string |
| Catalog.IncludesInfix | Music_player/ultra-modern-player/script.js:660-661 | a string includes whatever stands inside it |
| Catalog.IncludesAt | Music_player/ultra-modern-player/script.js:660-661 | an included string occurs at a position where it fits inside the string |
| Catalog.IncludesHasPosition | Music_player/ultra-modern-player/script.js:660-661 | an included string stands at some position |
| Catalog.Search | Music_player/ultra-modern-player/script.js:658-666 | the search result is no longer than the playlist, and a single track is kept exactly when it matches |
| Catalog.SearchFinds | Music_player/ultra-modern-player/script.js:658-666 | the results are exactly the tracks whose lower-cased title or artist includes the lower-cased query, both directions |
| Catalog.SearchAppend | Music_player/ultra-modern-player/script.js:658-662 | `filter` works track by track: searching two playlists put together gives the two results put together, in order |
| Catalog.SearchEmptyQuery | ultra-modern-player/script.js:1187-1195 | an empty query keeps the whole playlist in order |
| Catalog.RemoveAt | ocean-music-player/script.js:366 | removing position i keeps the tracks before i and shifts the ones after it down by one |
| Catalog.RemoveAtRestores | ocean-music-player/script.js:366 | putting the removed track back at i restores the playlist |
| Catalog.SpliceStart | Music_player/linjunjie_player/script.js:537 | `splice` counts a negative start from the end and pins a start past either end to that end |
| Catalog.Splice | Music_player/linjunjie_player/script.js:537 | `splice(index, 1)` removes the element at the start position, if there is one |
| Catalog.SpliceCases | Music_player/linjunjie_player/script.js:537 | a valid index removes that element, an index past the end removes nothing, and a negative one removes from the end |
| Catalog.LexLe | folder-music-player/script.js:446 | every title compares as less than or equal to itself |
| Catalog.LexLeAntisymmetric | folder-music-player/script.js:446 | two titles each at most the other are equal, so only equal titles tie |
| Catalog.LexLeTotal | folder-music-player/script.js:445 | any two titles are comparable |
| Catalog.LexLeTransitive | folder-music-player/script.js:445 | the title order is transitive |
| Catalog.TitleLeIsTotalPreorder | folder-music-player/script.js:445 | the title comparator is a total preorder |
| Catalog.Permute | folder-music-player/script.js:445 | the rearranged playlist takes each element from the listed position |
| Catalog.TitleOrder | folder-music-player/script.js:445 | the title order lists as many positions as tracks, all in bounds |
| Catalog.SortByTitle | folder-music-player/script.js:445 | the sorted playlist has as many tracks as before |
| Catalog.SortByTitleCorrect | folder-music-player/script.js:439-449 | the title order is a permutation, the sorted titles never decrease, and tracks with equal titles keep their earlier order |
| Catalog.FindIndexOf | folder-music-player/script.js:448 | `findIndex` gives the first position holding the value, or says it is absent |
| Catalog.TitleOrderFinds | folder-music-player/script.js:441-448 | the track current before the sort is found after it, at the position `findIndex` gives |
| Catalog.SortByTitleSameTracks | folder-music-player/script.js:445 | every track is still in the sorted playlist, and each sorted entry is the track its title-order position names |
| Catalog.SortedTracksAreTheFiles | folder-music-player/script.js:141-149 | the folder's sorted playlist holds the track of every file, and nothing but tracks of the files |
| Catalog.Save | ocean-music-player/script.js:98-109 | each saved record holds exactly the track's title, artist, duration and source |
| Catalog.Restore | ocean-music-player/script.js:91 | reading the records back gives one track per record |
| Catalog.SaveRestoreSave | ocean-music-player/script.js:85-109 | saving the restored playlist writes the same records again |
| Catalog.AudioOnly | ultra-modern-player/script.js:888 | the kept files are exactly the files whose type starts with `audio/`, and a single file is kept exactly when it is audio |
| Catalog.AudioOnlyAppend | ultra-modern-player/script.js:888 | `filter` keeps order: filtering two lists put together gives the two filtered lists put together |
| Catalog.IsAudio | ocean-music-player/script.js:250 | an audio type has the `audio/` prefix, and `audio/mpeg` passes |
| Catalog.TracksOf | ocean-music-player/script.js:259-266 | one track per file |
| Catalog.TracksOfPositions | ocean-music-player/script.js:259-266 | the k-th track is made from the k-th file |
| Catalog.BuildTracks | folder-music-player/script.js:143-146 | the push loop collects the tracks of all files in order |
| Clock.Trunc | ultra-modern-player/script.js:1378 | rounding toward zero is the floor for non-negative values and minus the floor of the negation for negative ones |
| Clock.Rem60 | ultra-modern-player/script.js:1378 | `x % 60` lies in [0, 60) for non-negative x and in (-60, 0] for negative x |
| Clock.DigitChar | ultra-modern-player/script.js:1379 | the character of a digit is a digit and has that value |
| Clock.Decimal | ultra-modern-player/script.js:1379 | `toString` of a natural number is a non-empty string of digits, one digit exactly for values below 10 |
| Clock.FormatTime | ultra-modern-player/script.js:1374-1380 | NaN and 0 both show `0:00`; any other time is rendered as minutes and padded seconds |
| Clock.FormatTimeNaNOnly | Music_player/linjunjie_player/script.js:339-344 | NaN shows `0:00`, and a zero that passes the guard still renders as `0:00` |
| Clock.DecimalReadsBack | ultra-modern-player/script.js:1379 | reading the decimal digits back gives the number |
| Clock.FormatTimeReadsBack | ultra-modern-player/script.js:1374-1380 | for a non-negative time the `m:ss` text reads back as the whole seconds, so the seconds field is below 60 and the minutes are the whole minutes |
| Clock.SplitClock | folder-music-player/script.js:630-636 | a non-negative time shows its whole minutes and the whole seconds of the last minute, and these split its whole seconds |
| Clock.ClockOfParts | ocean-music-player/script.js:653-659 | the text for m minutes and s seconds reads back as 60 m + s |
| Clock.RenderNonNegative | Music_player/ultra-modern-player/script.js:845-851 | a non-negative time renders without signs, and zero renders as `0:00` |
| Clock.ParseJoined | ultra-modern-player/script.js:1379 | minute digits, a colon and a two-digit field parse to their combined value |
| Clock.MinutesAndSeconds | ultra-modern-player/script.js:1377-1378 | the minutes and the seconds of the minute split the whole seconds, seconds below 60 |
| Clock.SecondsField | ultra-modern-player/script.js:1379 | the padded seconds are two digits, the first at most 5, spelling the value |
| Clock.NaNOnlyAgrees | Music_player/linjunjie_player/script.js:339-344 | the linjunjie `formatTime`, which catches only NaN, shows the same text as the others for every input |
| Clock.NegativeRendering | ultra-modern-player/script.js:1374-1380 | a negative time shows JavaScript's signs: -30 seconds is `-1:-30` |
| Text.SpanFrom | ultra-modern-player/script.js:968 | a forward run of matching characters ends at the first character that does not match |
| Text.SpanBack | ultra-modern-player/script.js:969 | a backward run of matching characters starts after the last character that does not match |
| Text.TrimBounds | ultra-modern-player/script.js:969 | `trim()` cuts only white space, and the kept part starts and ends with non-space |
| Text.Trim | ultra-modern-player/script.js:969 | `trim()` is the part between those bounds |
| Text.ReplaceSeparators | ultra-modern-player/script.js:967 | `-` and `_` become spaces and every other character stays |
| Text.NonSpacesAppend | ultra-modern-player/script.js:968 | the non-space characters of a concatenation are those of its parts |
| Text.NonSpacesOfSpaces | ultra-modern-player/script.js:968 | white space has no non-space characters |
| Text.CollapseSpaces | ultra-modern-player/script.js:968 | after collapsing, white space is single plain spaces, the words are the same in order (so each white-space run between two words became exactly one space), the non-space characters are the same, and a leading space stays |
| Text.StripExtension | ultra-modern-player/script.js:965 | dropping the extension keeps a prefix, and drops something exactly when the name has an extension |
| Text.LastDot | folder-music-player/script.js:215 | the position of the last dot, or none |
| Text.StripTrackNumber | ultra-modern-player/script.js:966 | dropping a leading track number keeps a suffix, and drops something exactly when the name starts with a digit |
| Text.StripTrackNumberRemovesNumber | folder-music-player/script.js:218 | what is dropped is digits, spaces, dots and hyphens, and what is left does not start with those separators |
| Text.CleanTitle | ultra-modern-player/script.js:964-969 | the cleaned title is the words of the name, with the extension and track number dropped and `-` and `_` as spaces, joined by single spaces; so it has the same words and the same non-space characters in order |
| Text.WordsSpaceCons | ultra-modern-player/script.js:968 | a white-space character in front of a string adds no word |
| Text.WordsCons | ultra-modern-player/script.js:968 | a non-space character in front starts a new word before white space or at the end, and otherwise joins the first word |
| Text.WordsDropSpaces | ultra-modern-player/script.js:969 | leading white space contributes no word |
| Text.WordsDropTrailing | ultra-modern-player/script.js:969 | trailing white space contributes no word |
| Text.TrimKeepsWords | ultra-modern-player/script.js:969 | `trim()` keeps every word, in order |
| Text.CollapseRunStep | ultra-modern-player/script.js:968 | a run of white space replaced by one space keeps the words and the non-space characters |
| Text.CollapseCharStep | ultra-modern-player/script.js:968 | a non-space character kept in front of a collapsed rest keeps the words |
| Text.SingleSpacedIsJoinedWords | ultra-modern-player/script.js:968-969 | text with only single inner plain spaces is exactly its words joined by single spaces |
| Text.TrimOfTrimmed | ultra-modern-player/script.js:969 | text that neither starts nor ends with white space is unchanged by `trim()` |
| Text.TrimKeepsNonSpaces | ultra-modern-player/script.js:969 | `trim()` drops white space only, keeping every non-space character in order |
| Text.TitleOr | folder-music-player/script.js:213-227 | the folder title is the cleaned file name (its words joined by single spaces, as `CleanTitle` states) when that is non-empty, and the fallback `Titre Inconnu` exactly when it is empty |
| Text.ExtractTitle | ultra-modern-player/script.js:963-970 | the title is the cleaned file name (its words joined by single spaces, as `CleanTitle` states) when that is non-empty, and `Unknown Track` exactly when it is empty; either way non-empty and clean |
| Text.ExtractTitleOfNumberedName | ultra-modern-player/script.js:963-970 | `01 - My_Song.mp3` gives the title `My Song` |
| Text.NoSeparatorInNonSpaces | ultra-modern-player/script.js:968 | a non-space character is in a string exactly when it is among its non-space characters |
| Text.CollapseKeepsNoSeparators | ultra-modern-player/script.js:967-968 | collapsing white space brings in no `-` or `_` |
| Text.TrimMakesClean | ultra-modern-player/script.js:969 | trimming text without separators and with single spaces gives clean text |
| Text.CleanTitleIsClean | ultra-modern-player/script.js:964-969 | the cleaner's output has no separators, no leading or trailing space and no double space |
| Text.CleaningIsIdempotent | Music_player/ultra-modern-player/script.js:449-456 | cleaning clean text again changes nothing |
| Text.CollapseFixedPoint | ultra-modern-player/script.js:968 | text with only single plain spaces is unchanged by the collapse |
| Text.OceanTitle | ocean-music-player/script.js:306-308 | the ocean title is the name without extension, with `-` and `_` turned into spaces and nothing else changed |
| Text.LazySplit | ultra-modern-player/script.js:973 | the lazy group `(.+?)` ends at the first position where a dash separator and text follow |
| Text.ExtractArtist | ultra-modern-player/script.js:972-975 | the artist is the trimmed text before the first dash separator, or `Unknown Artist` when the pattern fails |
| Text.ExtractArtistOfPair | Music_player/ultra-modern-player/script.js:458-461 | for `artist - title`, the artist is the trimmed first part |
| Text.LazySplitOfPair | Music_player/ultra-modern-player/script.js:459 | for `artist - title`, the lazy group ends right after the artist |
| Text.FirstIndexOf | folder-music-player/script.js:236 | the first position of a character, or none |
| Text.HyphenSplit | folder-music-player/script.js:236 | `^([^-]+)\s*-\s*(.+)` splits at the first hyphen exactly when a non-empty prefix precedes it and a character other than a line terminator follows |
| Text.FolderArtist | folder-music-player/script.js:229-242 | the folder name with separators as spaces, trimmed; otherwise the part before the first hyphen, trimmed; otherwise `Artiste Inconnu` |
| Text.FolderArtistOfPair | folder-music-player/script.js:236-239 | without a sub-folder, `artist-title` gives the trimmed artist |
| Text.Lower | Music_player/ultra-modern-player/script.js:660 | `toLowerCase` maps every character |
| Text.Upper | folder-music-player/script.js:246 | `toUpperCase` maps every character |
| Text.LastSegment | folder-music-player/script.js:245 | `split('.').pop()` is the dot-free suffix after the last dot, or the whole name |
| Text.FileFormat | folder-music-player/script.js:244-247 | the format label is the last dot-separated segment of the name, upper-cased; it has no lower-case letter and no dot |
| Text.UpperOfLower | folder-music-player/script.js:245-246 | upper-casing after lower-casing is upper-casing alone, and leaves no lower-case letter |
| Text.CaseFolded | folder-music-player/script.js:245-246 | lower- then upper-casing leaves no lower-case letter and makes a dot from nothing but a dot |
| Text.FormatIsStrippedExtension | folder-music-player/script.js:244-247 | for a name with an extension, the name is its stem, a dot and the last segment, and the label is that segment upper-cased |
| Plain.Loaded | ocean-music-player/script.js:406-422 | `loadTrack` ignores an index outside the playlist; otherwise the track becomes current and is sent to the element |
| Plain.Reset | ocean-music-player/script.js:424-436 | `resetPlayer` clears the `src` and stops playback, and changes nothing else |
| Plain.Previous | folder-music-player/script.js:382-394 | `previousTrack` moves to `(i - 1 + n) mod n`, sends that track to the element and `play()` when playing, and changes neither playback nor settings; nothing on an empty playlist |
| Plain.Next | folder-music-player/script.js:396-413 | `nextTrack` moves to `(i + 1) mod n`, or the uniform pick under shuffle, sends that track and `play()` when playing, and keeps the playlist, playback and settings; nothing on an empty playlist |
| Plain.ShuffledNextReachesAll | ocean-music-player/script.js:486-487 | under shuffle every track can come next, the current one included |
| Plain.Ended | ocean-music-player/script.js:554-566 | `onTrackEnded` keeps the index valid |
| Plain.EndedBehaviour | folder-music-player/script.js:509-521 | repeat one rewinds and replays the same track; at the last track with repeat off playback stops in place and nothing is sent; otherwise it is `nextTrack` |
| Plain.Cleared | folder-music-player/script.js:456-477 | a confirmed clear of a non-empty playlist leaves it empty at index 0, stopped and unloaded; otherwise nothing changes |
| Plain.VolumeChanged | folder-music-player/script.js:523-530 | the volume becomes slider / 100, muted exactly when it is 0; a value the element refuses changes nothing |
| Plain.MuteToggled | folder-music-player/script.js:532-545 | `toggleMute` flips the flag, keeps the stored volume, and sends 0 or that volume |
| Plain.MuteTwiceRestores | ocean-music-player/script.js:577-590 | two mute toggles restore the settings and leave the element at the stored volume |
| UltraModern.LastPlayedOf | ultra-modern-player/script.js:1083 | each entry is the track's `lastPlayed`, 0 when unset |
| UltraModern.Played | ultra-modern-player/script.js:1026 | a load adds one play to the loaded track and leaves every other track, and that track's other fields, as they were |
| UltraModern.Stamped | Music_player/ultra-modern-player/script.js:570-572 | the track being left gets the time stamp and nothing else changes |
| UltraModern.TotalPlays | ultra-modern-player/script.js:1026 | the total is 0 for no tracks and at least each track's count |
| UltraModern.TotalPlaysUpdate | ultra-modern-player/script.js:1026 | replacing one track changes the total play count by the difference of its counts |
| UltraModern.PlayedCountsOnce | ultra-modern-player/script.js:1026 | a load counts exactly one play in total, and no track's count goes down |
| UltraModern.Loaded | ultra-modern-player/script.js:1012-1031 | an index outside the playlist changes nothing; otherwise it becomes current, is sent to the element, and only that track gains one play |
| UltraModern.Previous | ultra-modern-player/script.js:1060-1073 | `#previousTrack` keeps the index valid, moves to `(i - 1 + n) mod n` and plays on if playing |
| UltraModern.NextChoice | ultra-modern-player/script.js:1080-1095 | the next index is inside the playlist |
| UltraModern.Next | ultra-modern-player/script.js:1075-1106 | `#nextTrack` keeps the index valid: `(i + 1) mod n`, or the smart pick under shuffle |
| UltraModern.NextStampsTrackLeft | Music_player/ultra-modern-player/script.js:570-572 | the time stamp goes on the track being left, the play on the track loaded, that track and `play()` when playing are sent, and no other field of any track, nor playback or settings, changes |
| UltraModern.ShuffledNextAvoidsRecent | Music_player/ultra-modern-player/script.js:551-564 | from seven tracks on, a shuffled next is neither the current track nor a recent one |
| UltraModern.VolumeSet | ultra-modern-player/script.js:1144-1153 | `#setVolume` stores the clamped level, muted exactly when it is 0 |
| UltraModern.MuteToggled | ultra-modern-player/script.js:1155-1164 | muting keeps the volume and sends 0; unmuting sets the stored volume again, or 0.7 when it is 0 |
| UltraModern.MuteTwiceRestores | Music_player/ultra-modern-player/script.js:626-635 | muting then unmuting gives back the user's volume |
| UltraModern.UnmuteFromSilence | ultra-modern-player/script.js:1157 | unmuting from volume 0 comes back at 0.7 |
| UltraModern.Ended | ultra-modern-player/script.js:1221-1231 | `#onTrackEnded` keeps the index valid |
| UltraModern.EndedBehaviour | ultra-modern-player/script.js:1221-1231 | repeat one rewinds and replays the same track; at the last track with repeat off playback stops in place; repeat all is `#nextTrack` in every case, wrapping to the first track at the end; otherwise it is `#nextTrack` before the last track |
| UltraModern.FindById | ultra-modern-player/script.js:1434 | `find` gives the first track with the id, or says there is none |
| UltraModern.FavoriteToggled | ultra-modern-player/script.js:1433-1445 | the first track with the id has its favourite flag flipped; an unknown id changes nothing |
| UltraModern.FavoriteTwice | Music_player/ultra-modern-player/script.js:904-916 | two toggles of the same id restore the session |
| UltraModern.FindByIdSameIds | ultra-modern-player/script.js:1434 | the lookup depends on the ids alone |
| UltraModern.NewTracks | ultra-modern-player/script.js:899-901 | one new track per audio file |
| UltraModern.TrackOf | ultra-modern-player/script.js:926-961 | a new track has the given id and the file's URL, the extracted title and artist, the probed duration, no plays, no favourite and no time stamp |
| UltraModern.Imported | ultra-modern-player/script.js:887-924 | nothing without audio files or when a probe fails; otherwise the new tracks are appended; on an empty playlist they become the playlist with one play on the first, which is loaded, and playback and settings are kept |
| UltraModern.NewTrackFirst | ultra-modern-player/script.js:899-901 | the first new track plays the first file and has no plays yet |
| UltraModern.LoadedFresh | ultra-modern-player/script.js:907-909 | loading the first track of what was an empty playlist gives that track one play, logs its load and keeps playback and settings |
| UltraModern.ImportedTitlesClean | ultra-modern-player/script.js:939 | every imported title is clean text or `Unknown Track` |
| UltraModern.SequentialNext | ultra-modern-player/script.js:2270-2279 | the second declaration's `#nextTrack` keeps the index valid and moves to `(i + 1) mod n` |
| UltraModern.SequentialEnded | ultra-modern-player/script.js:2299-2306 | the second declaration's `#onTrackEnded` keeps the index valid |
| UltraModern.SequentialIgnoresRepeat | ultra-modern-player/script.js:2299-2306 | at the last track the second declaration stops even on repeat, where the first wraps or replays, and it stamps nothing |
| UltraModern.Player.constructor | ultra-modern-player/script.js:679-689 | the initial state: empty playlist, index 0, stopped, no shuffle, repeat off, volume 0.7, unmuted |
| UltraModern.Player.LoadTrack | Music_player/ultra-modern-player/script.js:483-502 | performs `Loaded` on the fields |
| UltraModern.Player.ImportTracks | Music_player/ultra-modern-player/script.js:373-410 | performs `Imported` on the fields |
| UltraModern.Player.TogglePlay | ultra-modern-player/script.js:1033-1058 | performs `PlayToggled` on the fields |
| UltraModern.Player.PreviousTrack | Music_player/ultra-modern-player/script.js:531-544 | performs `Previous` on the fields |
| UltraModern.Player.NextTrack | Music_player/ultra-modern-player/script.js:546-577 | performs `Next` on the fields |
| UltraModern.Player.ToggleShuffle | Music_player/ultra-modern-player/script.js:579-589 | performs `ShuffleToggled` on the fields |
| UltraModern.Player.ToggleRepeat | Music_player/ultra-modern-player/script.js:591-606 | performs `RepeatToggled` on the fields |
| UltraModern.Player.SetVolume | Music_player/ultra-modern-player/script.js:615-624 | performs `VolumeSet` on the fields |
| UltraModern.Player.ToggleMute | Music_player/ultra-modern-player/script.js:626-635 | performs `MuteToggled` on the fields |
| UltraModern.Player.OnTrackEnded | Music_player/ultra-modern-player/script.js:692-702 | performs `Ended` on the fields |
| UltraModern.Player.ToggleFavorite | Music_player/ultra-modern-player/script.js:904-916 | performs `FavoriteToggled` on the fields |
| UltraModern.Player.SequentialNextTrack | ultra-modern-player/script.js:2270-2279 | performs `SequentialNext` on the fields |
| UltraModern.Player.SequentialOnTrackEnded | ultra-modern-player/script.js:2299-2306 | performs `SequentialEnded` on the fields |
| Folder.SupportedOnly | folder-music-player/script.js:131-135 | the kept files are exactly those whose lower-cased name ends with a supported extension, and a single file is kept exactly when it is supported |
| Folder.SupportedOnlyAppend | folder-music-player/script.js:131-135 | the scan keeps order: filtering two lists put together gives the two filtered lists put together |
| Folder.IsSupported | folder-music-player/script.js:131-135 | a kept name is at least as long as the shortest extension |
| Folder.UpperCaseExtensionSupported | folder-music-player/script.js:133-134 | the test lower-cases the name first, so `Song.MP3` is kept |
| Folder.TrackOf | folder-music-player/script.js:174-210 | a track's title is the cleaned name or `Titre Inconnu`, its artist the folder artist, its format the upper-cased extension, its source the URL and its duration the probed one, 0 on failure |
| Folder.Sorted | folder-music-player/script.js:439-454 | `sortPlaylist` keeps the index valid and does nothing on an empty playlist |
| Folder.SortedKeepsCurrent | folder-music-player/script.js:439-449 | after sorting, the titles are in order, the playlist is a permutation of the old one, the same track is current, and nothing else changed |
| Folder.Selected | folder-music-player/script.js:120-172 | nothing without files or supported files; otherwise the playlist is the files' tracks in title order, the first loaded |
| Folder.SelectedInTitleOrder | folder-music-player/script.js:141-149 | the folder's playlist has one track per supported file, in title order |
| Folder.Player.constructor | folder-music-player/script.js:7-25 | the initial state: empty playlist, index 0, stopped, volume 0.7, no folder |
| Folder.Player.LoadTrack | folder-music-player/script.js:332-354 | performs `Loaded` on the fields |
| Folder.Player.SelectFolder | folder-music-player/script.js:120-172 | performs `Selected` on the fields and remembers the folder whenever files were chosen |
| Folder.Player.TogglePlay | folder-music-player/script.js:356-380 | performs `PlayToggled` on the fields |
| Folder.Player.PreviousTrack | folder-music-player/script.js:382-394 | performs `Previous` on the fields |
| Folder.Player.NextTrack | folder-music-player/script.js:396-413 | performs `Next` on the fields |
| Folder.Player.ToggleShuffle | folder-music-player/script.js:415-420 | performs `ShuffleToggled` on the fields |
| Folder.Player.ToggleRepeat | folder-music-player/script.js:422-437 | performs `RepeatToggled` on the fields |
| Folder.Player.SortPlaylist | folder-music-player/script.js:439-454 | performs `Sorted` on the fields |
| Folder.Player.ClearPlaylist | folder-music-player/script.js:456-477 | performs `Cleared` on the fields and forgets the folder when it clears |
| Folder.Player.OnTrackEnded | folder-music-player/script.js:509-521 | performs `Ended` on the fields |
| Folder.Player.OnVolumeChange | folder-music-player/script.js:523-530 | performs `VolumeChanged` on the fields |
| Folder.Player.ToggleMute | folder-music-player/script.js:532-545 | performs `MuteToggled` on the fields |
| Ocean.Imported | ocean-music-player/script.js:249-276 | nothing without audio files; otherwise the index stays valid |
| Ocean.TrackOf | ocean-music-player/script.js:278-303 | a track's title is the name without extension with separators as spaces, its artist `Artiste Inconnu`, its source the URL and its duration the probed one, 0 on failure |
| Ocean.ImportAppends | ocean-music-player/script.js:259-275 | the new tracks are appended after the old ones; the first is loaded exactly when the playlist was empty, otherwise the index and the element are untouched |
| Ocean.Removed | ocean-music-player/script.js:358-384 | an index outside the playlist changes nothing; otherwise exactly that track is removed and the index stays valid |
| Ocean.RemoveOtherKeepsCurrent | ocean-music-player/script.js:369-370 | removing another track keeps the same track current and touches neither playback nor the element |
| Ocean.RemoveCurrent | ocean-music-player/script.js:371-380 | removing the current track loads its successor, or the new last track; removing the only track resets to index 0, stopped |
| Ocean.RemovedRestores | ocean-music-player/script.js:366 | the removed track can be put back where it was |
| Ocean.Saved | ocean-music-player/script.js:98-109 | the snapshot is the state record and each track's title, artist, duration and source |
| Ocean.Reloaded | ocean-music-player/script.js:85-96 | a reload takes the stored state fields and the stored tracks |
| Ocean.SaveReloadSave | ocean-music-player/script.js:85-109 | a save then a reload keeps the state and index validity, and saving again writes the same snapshot |
| Ocean.PlayToggledAfterResume | ocean-music-player/script.js:438-466 | on an empty playlist or when the context resume fails nothing changes; otherwise a playing session pauses, and a paused one plays exactly when `play()` resolves |
| Ocean.Player.constructor | ocean-music-player/script.js:7-30 | the initial state: empty playlist, index 0, stopped, volume 0.5 |
| Ocean.Player.LoadTrack | ocean-music-player/script.js:406-422 | performs `Loaded` on the fields |
| Ocean.Player.ResetPlayer | ocean-music-player/script.js:424-436 | unloads the element and stops playback |
| Ocean.Player.ProcessFiles | ocean-music-player/script.js:249-276 | performs `Imported` on the fields |
| Ocean.Player.RemoveTrack | ocean-music-player/script.js:358-384 | performs `Removed` on the fields |
| Ocean.Player.ClearPlaylist | ocean-music-player/script.js:386-404 | performs `Cleared` on the fields |
| Ocean.Player.TogglePlay | ocean-music-player/script.js:438-466 | performs `PlayToggledAfterResume` on the fields |
| Ocean.Player.PreviousTrack | ocean-music-player/script.js:468-480 | performs `Previous` on the fields |
| Ocean.Player.NextTrack | ocean-music-player/script.js:482-499 | performs `Next` on the fields |
| Ocean.Player.ToggleShuffle | ocean-music-player/script.js:501-506 | performs `ShuffleToggled` on the fields |
| Ocean.Player.ToggleRepeat | ocean-music-player/script.js:508-523 | performs `RepeatToggled` on the fields |
| Ocean.Player.OnTrackEnded | ocean-music-player/script.js:554-566 | performs `Ended` on the fields |
| Ocean.Player.OnVolumeChange | ocean-music-player/script.js:568-575 | performs `VolumeChanged` on the fields |
| Ocean.Player.ToggleMute | ocean-music-player/script.js:577-590 | performs `MuteToggled` on the fields |
| Linjunjie.Imported | Music_player/linjunjie_player/script.js:290-307 | the audio files' tracks are appended and nothing else changes |
| Linjunjie.TrackOf | Music_player/linjunjie_player/script.js:310-337 | a track's title is the name without extension, its artist `Lin Junjie`, its duration the probed value and its source the URL |
| Linjunjie.LoadThrows | Music_player/linjunjie_player/script.js:362-375 | `loadTrack` throws exactly for an index outside a non-empty playlist |
| Linjunjie.Loaded | Music_player/linjunjie_player/script.js:353-377 | an empty playlist unloads the element and keeps the index; otherwise the index is taken as given, and a track at it is sent to the element |
| Linjunjie.Stepped | Music_player/linjunjie_player/script.js:398-424 | a step sets the index first, then sends the track and `play()` when playing unless the load throws, and keeps playlist, playback and settings |
| Linjunjie.Previous | Music_player/linjunjie_player/script.js:398-409 | nothing on an empty playlist; `(i - 1 + n) mod n` from a valid index; one further down from a negative index, with nothing loaded |
| Linjunjie.Next | Music_player/linjunjie_player/script.js:411-424 | nothing on an empty playlist; the uniform pick under shuffle; otherwise `(i + 1) % n` with JavaScript's remainder |
| Linjunjie.StepsStayInside | Music_player/linjunjie_player/script.js:398-424 | from a valid index or -1, both steps land inside the playlist and load that track; next from -1 goes to 0 |
| Linjunjie.PreviousFromNegativeDrifts | Music_player/linjunjie_player/script.js:401-405 | below 0, previous only lowers the index, because the load throws |
| Linjunjie.Removed | Music_player/linjunjie_player/script.js:536-548 | the playlist is `splice(index, 1)`; removing another track moves the index down when that track came first |
| Linjunjie.RemoveOtherKeepsCurrent | Music_player/linjunjie_player/script.js:539-544 | removing another track keeps the same track current |
| Linjunjie.RemoveCurrent | Music_player/linjunjie_player/script.js:539-541 | removing the current track loads the one at `min(i, n - 2)`; removing the only track leaves index -1 and unloads |
| Linjunjie.StrayIndexAfterRemoval | Music_player/linjunjie_player/script.js:290-307 | after the only track is removed, a new import fills the playlist while the index stays at -1 |
| Linjunjie.Cleared | Music_player/linjunjie_player/script.js:482-493 | a confirmed clear empties the playlist at index 0, pauses and unloads twice; otherwise nothing |
| Linjunjie.VolumeSet | Music_player/linjunjie_player/script.js:453-458 | `setVolume` stores and sends the clamped volume and leaves mute alone |
| Linjunjie.VolumeAdjusted | Music_player/linjunjie_player/script.js:460-462 | `adjustVolume` keeps the volume in [0, 1] for any delta and leaves mute alone |
| Linjunjie.AdjustBackAndForth | Music_player/linjunjie_player/script.js:453-462 | an adjustment within range is undone by the opposite one; past an end it stops at that end |
| Linjunjie.MuteToggled | Music_player/linjunjie_player/script.js:464-469 | `toggleMute` flips the flag, sets `audio.muted` and keeps the volume |
| Linjunjie.MuteTwiceRestores | Music_player/linjunjie_player/script.js:464-469 | two toggles restore every setting |
| Linjunjie.RepeatPressed | Music_player/linjunjie_player/script.js:434-445 | `toggleRepeat` moves one step along none, all, one and changes nothing else |
| Linjunjie.RepeatRunsBackwards | Music_player/linjunjie_player/script.js:435-437 | this repeat button undoes the other players' one, and three presses restore the session |
| Linjunjie.PlayPressed | Music_player/linjunjie_player/script.js:379-396 | nothing without a source or when resuming fails; otherwise `play()` when paused and `pause()` when not; `isPlaying` is untouched |
| Linjunjie.PlayNeedsSource | Music_player/linjunjie_player/script.js:380 | after a load the play button acts; after a clear it does nothing |
| Linjunjie.Played | Music_player/linjunjie_player/script.js:571-577 | the play event sets `isPlaying` and nothing else |
| Linjunjie.Paused | Music_player/linjunjie_player/script.js:579-585 | the pause event clears `isPlaying` and nothing else |
| Linjunjie.Ended | Music_player/linjunjie_player/script.js:587-596 | `onTrackEnd` never changes `isPlaying`, the playlist or the settings |
| Linjunjie.EndedBehaviour | Music_player/linjunjie_player/script.js:587-596 | repeat one rewinds and replays; at the end with repeat off nothing changes; otherwise it is `nextTrack` |
| Linjunjie.Player.constructor | Music_player/linjunjie_player/script.js:7-31 | the initial state: empty playlist, index 0, stopped, volume 0.5 |
| Linjunjie.Player.LoadTrack | Music_player/linjunjie_player/script.js:353-377 | performs `Loaded` on the fields and reports whether the call throws |
| Linjunjie.Player.HandleFileSelection | Music_player/linjunjie_player/script.js:290-307 | performs `Imported` on the fields |
| Linjunjie.Player.TogglePlay | Music_player/linjunjie_player/script.js:379-396 | performs `PlayPressed` on the fields |
| Linjunjie.Player.PreviousTrack | Music_player/linjunjie_player/script.js:398-409 | performs `Previous` on the fields |
| Linjunjie.Player.NextTrack | Music_player/linjunjie_player/script.js:411-424 | performs `Next` on the fields |
| Linjunjie.Player.ToggleShuffle | Music_player/linjunjie_player/script.js:426-432 | performs `ShuffleToggled` on the fields |
| Linjunjie.Player.ToggleRepeat | Music_player/linjunjie_player/script.js:434-445 | performs `RepeatPressed` on the fields |
| Linjunjie.Player.SetVolume | Music_player/linjunjie_player/script.js:453-458 | performs `VolumeSet` on the fields |
| Linjunjie.Player.AdjustVolume | Music_player/linjunjie_player/script.js:460-462 | performs `VolumeAdjusted` on the fields |
| Linjunjie.Player.ToggleMute | Music_player/linjunjie_player/script.js:464-469 | performs `MuteToggled` on the fields |
| Linjunjie.Player.ClearPlaylist | Music_player/linjunjie_player/script.js:482-493 | performs `Cleared` on the fields |
| Linjunjie.Player.RemoveTrack | Music_player/linjunjie_player/script.js:536-548 | performs `Removed` on the fields |
| Linjunjie.Player.OnPlay | Music_player/linjunjie_player/script.js:571-577 | performs `Played` on the fields |
| Linjunjie.Player.OnPause | Music_player/linjunjie_player/script.js:579-585 | performs `Paused` on the fields |
| Linjunjie.Player.OnTrackEnd | Music_player/linjunjie_player/script.js:587-596 | performs `Ended` on the fields |

## Left out

- The DOM is not modelled. That covers element lookups, templates, icons, status messages, notifications, modals, keyboard shortcuts and drag-and-drop.
- Web Audio and canvas work is not modelled: audio processing, visualisers, the equalizer, immersive mode and particles. In the ocean and linjunjie players `audioContext.resume()` comes before both branches of `togglePlay`; it is the `resumeOk` parameter of `Ocean.PlayToggledAfterResume` and `Linjunjie.PlayPressed`.
- The recording, lyrics and assistant engines of the ultra-modern player are not modelled. They are microphone I/O and canned text.
- Storage I/O is not modelled. `localStorage` and JSON are left out; only the fields the ocean player's `saveData` projects, and the merge `loadStoredData` performs, are modelled. A stored record with missing fields is not modelled.
- The ultra-modern and folder players' storage (`#saveState`, `#savePlaylist`, `saveData`) is not modelled.
- Asynchronous file probing (`createTrackFromFile`) is replaced by the duration stored with each `SourceFile`. `URL.createObjectURL` / `revokeObjectURL` are replaced by the `url` field.
- `crypto.randomUUID()` becomes a list of ids passed to the import. `new Date().toISOString()`, `size`, `type`, `file` and `path` are fields no operation reads, so tracks do not carry them.
- The folder player's `buildFolderStructure` and `updateFolderDisplay` are not modelled. The chosen folder's name and each file's sub-folder path are inputs; the `webkitRelativePath` splitting is not modelled.
- `seekTo`, `onProgressChange`, `onTimeUpdate` and `onLoadedMetadata` are progress display and are not modelled. Only the `formatTime` they call is.
- `formatFileSize` of the linjunjie player is not modelled; it needs floating-point logarithms.
- Catalog.LexLe: `localeCompare` is modelled as code-unit order, because locale collation tables are not available.
- Text.Lower, Text.Upper: `toLowerCase` / `toUpperCase` map ASCII letters only; other letters are left unchanged.
- Clock.FormatTimeReadsBack: the read-back is stated for non-negative times only. Media times are never negative. A negative time is covered by `Clock.NegativeRendering`, on one example.
- Policy.ShuffleAvoidsCurrentFromSeven: the shuffle is stated to avoid the current and recent tracks from seven tracks on. Below that, `Policy.SmartShuffle` states which case applies but not how many candidates exist.
- The plural `piste(s)` in the linjunjie stats text is not modelled. Only the count and the total are.
- A `Seconds` value is NaN or a real number. Infinity does not occur.
- Sessions.PlayToggled: the ultra-modern player's `resumeContext()` runs only before `play()`. A failed resume is modelled as a rejected `play()`, so the `Play` command is still in the log and only `isPlaying` shows the failure.
- Linjunjie.AdjustBackAndForth: volumes are real numbers, not IEEE doubles. An adjustment such as 0.1 and back is exact in the model, while the browser may round it twice.
