# jangnet.cc media core in Dafny

A model of the media core of a self-hosted, single-user music server, with proofs about it. The model has three parts:

- **Scanner** (`lib/scanner.js`). A music root holds artist directories, which hold album directories, which hold `.flac` files and an optional `cover.jpg`. The scanner turns this tree into a library of artists, albums and tracks. It parses track file names (`01. Title.flac`) and album directory names (`Artist - Album (1999)`). It sorts tracks by number, albums by year and artists by name. The model also covers:
  - the projection of the library that is sent to the browser;
  - the containment check that guards every file the server opens.
- **Server routes** (`server.js`). Two media routes are modelled:
  - `GET /api/stream/:artistIdx/:albumIdx/:trackIdx`: index checks, the path check, a missing file, and one byte range.
  - `GET /api/cover/:artistIdx/:albumIdx`: index, cover and path checks, and the default and clamp of the width.
- **Player** (`player/player.js`). This is the browser's playback engine. It holds an automatic queue built from a list, with loop and shuffle modes, and a manual "next up" queue that takes priority. It also holds a stack of views, favourite artists and albums, playlists, and the album-art panel. The panel must never show a slow image of a cover the user has already left.

Files and modules:

| file | module | contents |
|---|---|---|
| `text.dfy` | `Text` | What JavaScript does with strings: `\s`, `trim`, `parseInt(s, 10)`, `String(n)`, `startsWith`, `replace`, `split` |
| `sorting.dfy` | `Sorting` | `Array.prototype.sort` with a `key(a) - key(b)` comparator, as a stable sort by key |
| `lists.dfy` | `Lists` | The two list shapes the scanner's loops build: filter-and-push (`Collect`) and `map` |
| `scanner.dfy` | `Scanner` | The directory tree as a value, the name parsers, `scanLibrary` as a specification function plus the loops that compute it, `buildClientLibrary`, `validatePath` |
| `server.dfy` | `Server` | The two route handlers as functions from a request to an outcome and a response |
| `player.dfy` | `Playback` | The engine's module variables as fields of class `Player`; each handler is a method on it, specified by pure step functions |
| `findings.dfy` | `Findings` | The handlers that misbehave after playback runs off the end of the queue, and the playlist row that queues entries the view does not list, modelled as written |

Where the specification and the code disagree, the model follows the code:
- **Track file names.** Only names ending in `.flac` become tracks, in any ASCII case. The white space after the number's dot is required.
- **Album names.** The year suffix may be followed by white space. When a year is found, the remaining name is trimmed at both ends.
- **Artist order.** Artists are sorted with `localeCompare` at base sensitivity, which ignores accents as well as case.
- **Range header end.** The last byte defaults to `fileSize - 1` when the second field is empty, as well as when it is missing.
- **Range fields that are not numbers.** Such a field is read as NaN. A NaN bound makes none of the 416 comparisons fire.
- **Shuffle on.** The flag is flipped in every case. The code saves the order and reshuffles when the queue has two or more tracks and the position is not negative; `Findings.ShuffleOnAsWritten` follows that guard. `Playback.Player.ToggleShuffle` uses the corrected guard, a position inside the queue (second row under Findings).
- **Playlists.** Saved playlists may name tracks a later scan removed. The playlist view lists only the entries that still name a track, but a click on a row queues every entry (third row under Findings); `Playback.Player.PlayPlaylistRow` queues the listed ones.

## Model

| member | source | states |
|---|---|---|
| `Text.DigitRun` | lib/scanner.js:91 | `\d+` at the start of a name is the longest run of digits: all of it digits, and the next character is not one |
| `Text.TrimPadded` | lib/scanner.js:83 | `trim` removes exactly the white space around a text that starts and ends with something else |
| `Text.TrimIdempotent` | lib/scanner.js:83 | a trimmed name has nothing left to trim |
| `Text.TrimEmptyIffSpace` | player/player.js:509 | a name trims to nothing exactly when it is all white space, so such a name creates no playlist |
| `Text.NatToString` | player/player.js:86 | the decimal rendering of an index is a non-empty run of digits that denotes the index |
| `Text.ParseNat` | server.js:152-154 | `parseInt` reads back the decimal rendering of every index the player puts in a URL |
| `Text.ParseIntOfNatToString` | server.js:179-180 | `parseInt` of a number's rendering followed by a non-digit is that number |
| `Text.IndexOf` | server.js:178 | the position found is an occurrence, and no earlier position is one |
| `Text.SplitTwo` | server.js:178 | the first two fields of `split('-')`: the text before the first `-`, and the text up to the next `-` when there is a first one |
| `Text.SplitAfterDigits` | server.js:178 | `<digits>-<rest>` splits into the digits and the rest |
| `Sorting.SortByKey` | lib/scanner.js:43 | the sorted list is a rearrangement of the input |
| `Sorting.SortByKeyCorrect` | lib/scanner.js:43 | the sort orders the keys and keeps elements with equal keys in listing order |
| `Sorting.SortByKeyUnique` | lib/scanner.js:55 | any list that orders the keys and keeps every equal-key class in listing order is the sort's result, so the stable sort is unique |
| `Lists.CollectMembers` | lib/scanner.js:35-41 | a value is pushed exactly when some element of the list yields it |
| `Lists.CollectOrdered` | lib/scanner.js:57-63 | pushing in listing order keeps an order the listing already had |
| `Lists.Map` | lib/scanner.js:21-23 | `map` keeps the length and maps each position |
| `Scanner.ValidatePath` | lib/scanner.js:119-123 | a path is admitted exactly when it is the root, a separator, then any rest |
| `Scanner.ValidatePathRejectsRootAndSiblings` | lib/scanner.js:119-123 | the root itself is refused, and so is a sibling whose name extends the root's name |
| `Scanner.JoinStaysInside` | lib/scanner.js:38 | a name joined below an admitted path is admitted too |
| `Scanner.ParseTrackFile` | lib/scanner.js:89-98 | a parsed name ends in `.flac` in some case, and its title is non-empty with no line terminator |
| `Scanner.ParseTrackFileSound` | lib/scanner.js:91-97 | every parsed track comes from a match of `^(\d+)\.\s+(.+)\.flac$`: the number is the digit run's value and the title is the text between the white space and the extension |
| `Scanner.ParseTrackFileComplete` | lib/scanner.js:91-97 | every match of the pattern parses. The number is the digit run's value, and the title is the shortest capture a match allows, because `\s+` is greedy |
| `Scanner.StripArtistPrefix` | lib/scanner.js:72-76 | `"<artist> - "` is removed exactly when the name starts with it; otherwise the name is untouched |
| `Scanner.FindYearSuffix` | lib/scanner.js:79 | `\((\d{4})\)\s*$` matches at the position found, and at no other position |
| `Scanner.ParseAlbumDir` | lib/scanner.js:70-87 | without a year, the name is the prefix-stripped directory name, untrimmed |
| `Scanner.ParseAlbumDirYear` | lib/scanner.js:78-84 | a year is found exactly when the name ends in `(dddd)` plus white space. The year is those digits and the name is the text before the `(`, trimmed |
| `Scanner.AlbumDirRoundTrip` | lib/scanner.js:70-87 | `"<artist> - <album> (<dddd>)"` gives back the album name and the year |
| `Scanner.CollectTracks` | lib/scanner.js:35-41 | the loop over `.flac` names pushes the parsed track of each name that parses, in listing order |
| `Scanner.ScanAlbum` | lib/scanner.js:25-52 | one pass of the album loop builds the album its directory specifies |
| `Scanner.CollectAlbums` | lib/scanner.js:25-53 | the album loop builds one album per album directory, in listing order |
| `Scanner.ScanLibrary` | lib/scanner.js:4-68 | the nested loops compute the library the specification function `Scan` defines, including the empty library for a missing root |
| `Scanner.FlacNameOf` | lib/scanner.js:32-33 | every name kept by the `.flac` filter is the name of an entry of the directory |
| `Scanner.CollectFromFlacNames` | lib/scanner.js:32-41 | the tracks collected from the filtered names are exactly what the entries whose names end in `.flac` yield |
| `Scanner.AlbumTracksOrdered` | lib/scanner.js:43 | an album's tracks are in non-decreasing number order, with equal numbers in listing order |
| `Scanner.AlbumTracksMembers` | lib/scanner.js:31-43 | an album holds exactly the tracks its entries' names yield; names the pattern refuses are skipped |
| `Scanner.TrackSource` | lib/scanner.js:35-40 | every track comes from a file name of its album directory that parses to its number and title, and its path is that file's path |
| `Scanner.ArtistAlbums` | lib/scanner.js:55 | an artist has one album per album directory, ordered by year (null counts as 0), same-year albums in listing order |
| `Scanner.AlbumSource` | lib/scanner.js:21-53 | every album is the album of one of the artist's subdirectories |
| `Scanner.AlbumOfEverySubdir` | lib/scanner.js:21-53 | every subdirectory gives an album, even one with no tracks |
| `Scanner.ArtistSource` | lib/scanner.js:57-63 | every artist is the artist of a directory of the root and has at least one album |
| `Scanner.ArtistOfEveryDir` | lib/scanner.js:12-17 | every directory of the root with a subdirectory gives an artist |
| `Scanner.ScanOrdered` | lib/scanner.js:5-15 | a missing root gives the empty library, and artists come in collation order of their names |
| `Scanner.ScannedPathsInsideRoot` | lib/scanner.js:18-38 | under a root that does not end in the separator, every track path and every cover path the scan records is admitted by `validatePath` |
| `Scanner.RootEndingInSepRefusesAll` | lib/scanner.js:119-123 | under a root that ends in the separator, no path below an entry of the root is admitted, so every scanned track and cover path is refused |
| `Scanner.ClientIndexesResolve` | lib/scanner.js:100-117 | the client library has the server library's shape. Every `idx`, at each of the three levels, is the entry's position, `trackCount` is the track count, and a track's `idx` path leads to the server track with the same number and title |
| `Server.LookupTrack` | server.js:152-160 | a track is found exactly when the three parameters parse to positions at their levels, and it is the track at those positions |
| `Server.LookupAlbum` | server.js:115-120 | an album is found exactly when both parameters parse to positions at their levels, and it is the album at those positions |
| `Server.RangeBounds` | server.js:178-180 | a parsed first byte is not negative, and the last byte is either not negative or the default `fileSize - 1` |
| `Server.DecideRange` | server.js:182-185 | a satisfiable range lies inside the file with first ≤ last; a range passed on unparsed has a NaN bound |
| `Server.RangeFields` | server.js:178-180 | the bounds of `bytes=<digits>-<rest>` are the parsed fields, and an empty last field defaults to the last byte |
| `Server.ClosedRange` | server.js:177-194 | `bytes=<first>-<last>` is served exactly when first ≤ last < size, and otherwise draws 416 |
| `Server.OpenRange` | server.js:180-185 | `bytes=<first>-` runs to the last byte when first < size, and otherwise draws 416 |
| `Server.SuffixRange` | server.js:179-185 | `bytes=-<n>` draws 416 when n ≥ size and otherwise leaves the first byte NaN: it is never served as a suffix range |
| `Server.StreamResponseLength` | server.js:183-200 | no header is set twice and every body's `Content-Length` is its length. A 206 body is exactly bytes first..last, and `Content-Range` names that span and the file size |
| `Server.StreamOutcomeRespondable` | server.js:182-194 | every partial outcome the handler reaches lies inside the file |
| `Server.StreamWithoutRange` | server.js:156-202 | bad indices give 404 before the path check, then 403, then 404 for a missing file, then 200 with the whole file |
| `Server.StreamUrlResolves` | server.js:151-162 | the three positions the player puts in a stream URL find that very track |
| `Server.TrackPosition` | server.js:156-162 | the positions behind a found track are the numbers the three parameters parse to, and the track is the one at them |
| `Server.ContainedStreamNeverForbidden` | server.js:163-165 | when every track path is inside the root, the stream route never answers 403 |
| `Server.ScannedStreamNeverForbidden` | server.js:163-165 | under a root that does not end in the separator, a library built by the scanner never draws 403 on the stream route |
| `Server.CoverWidth` | server.js:132-133 | the width served is always within [50, 1200] |
| `Server.CoverWidthOfRequest` | server.js:132-133 | a width within [50, 1200] is served as asked and larger ones at 1200. A smaller width is served at 50, except 0, which gets the default 400, as does an absent `w` |
| `Server.CoverChecksInOrder` | server.js:114-133 | bad indices give 404, then a missing cover 404, then a failed path check 403, and otherwise the clamped width |
| `Server.ScannedCoverNeverForbidden` | server.js:127-130 | under a root that does not end in the separator, a library built by the scanner never draws 403 on the cover route |
| `Playback.RemoveAt` | player/player.js:81 | `splice(i, 1)` removes exactly the element at `i` and shifts the rest; out of range it changes nothing |
| `Playback.FirstIndex` | player/player.js:80 | `indexOf` is -1 exactly for an absent value, and otherwise the first position holding it |
| `Playback.ToggledFlips` | player/player.js:79-90 | a toggle flips whether the key is a favourite, touches no other key, and keeps the list free of duplicates |
| `Playback.ToggleTwice` | player/player.js:79-83 | toggling a new favourite twice gives back the list as it was |
| `Playback.AlbumKeyRoundTrip` | player/player.js:844-853 | splitting a favourite album's key at `-` and reading both parts gives back the album; no two albums share a key |
| `Playback.NextStep` | player/player.js:1011-1029 | the queues and the play for each case: under `one` nothing changes and the track restarts. Otherwise the manual queue's head is taken off and played; with no manual entry and an empty queue nothing plays; otherwise the position moves on one and that track plays. Past the end it wraps to 0 under `all` and otherwise stops at the end without playing, with the correction under Findings |
| `Playback.PrevStep` | player/player.js:1031-1040 | the queues and the play for each case: an empty queue changes nothing. After three seconds the track restarts. Otherwise the position steps back one and that track plays; from the first track it wraps to the last under `all` and otherwise goes to 0 without playing. The manual queue is untouched |
| `Playback.NextThenPrev` | player/player.js:1011-1040 | next then previous, inside the queue, comes back to the track that was playing |
| `Playback.NextSteps` | player/player.js:1011-1029 | any number of next presses keeps the position between -1 and the queue's length |
| `Playback.LoopAllCycles` | player/player.js:1023-1025 | under `all`, after k presses the position has moved on by k modulo the queue's length |
| `Playback.RunOffIsFinal` | player/player.js:1022-1040 | once playback runs off the end without looping, next changes nothing and previous plays the last track |
| `Playback.ReshuffleIsPermutation` | player/player.js:181-191 | a reshuffled queue holds the same tracks, each as often |
| `Playback.CurrentThenRest` | player/player.js:183-189 | the current track followed by a rearrangement of the others is a reshuffle of the queue |
| `Playback.AllBut` | player/player.js:184-187 | the loop collects every track but the current one, in order |
| `Playback.CurrentFirstShuffled` | player/player.js:181-191 | the new order is the current track, then the others in shuffled order |
| `Playback.FindIdx` | player/player.js:950-955 | the first position of the track, the one `indexOf` finds, or 0 when it is absent |
| `Playback.ValidRefsMembers` | player/player.js:532-534 | the entries the playlist view lists are exactly the playlist's references that name a track of the library |
| `Playback.ValidRefsOfValid` | player/player.js:532-534 | a playlist with no stale reference is listed whole, in its order |
| `Playback.AlbumRefs` | player/player.js:366-369 | the album view's list holds each track of the album once, in track order |
| `Playback.ShuffleArray` | player/player.js:174-179 | the in-place swaps leave a rearrangement of the array |
| `Playback.Shuffled` | player/player.js:174-179 | shuffling keeps every track, each as often |
| `Playback.Settle` | player/player.js:523-525 | rendering comes to rest on a view that is not a missing playlist, or with an empty history, and only ever pops the history |
| `Playback.NavigateThenGoBack` | player/player.js:202-215 | going back after navigating restores the view, its arguments and the history. Navigating to a missing playlist leaves all three as they were |
| `Playback.ArtRequests` | player/player.js:135-151 | a change of cover asks for an 80-pixel thumbnail, and for the panel's size capped at 1200 only when that exceeds 80 |
| `Playback.ArtRequestsServedAsAsked` | player/player.js:137-147 | the cover route serves every image the panel asks for at exactly the width asked |
| `Playback.ViewCover` | player/player.js:305-364 | the cover an artist view (lines 305-311) or an album view (line 364) puts in the panel is an album of the library that has a cover |
| `Playback.Player.constructor` | player/player.js:6-31 | the engine starts with empty queues at position -1, no track, loop off, shuffle off, the library view, and the saved favourites and playlists, whose entries may name tracks the library no longer has |
| `Playback.Player.UpdateArt` | player/player.js:110-152 | nothing happens when the wanted cover's key is unchanged. A new key asks for its images; no cover empties the panel |
| `Playback.Player.ArtLoaded` | player/player.js:138-150 | a loaded image is shown only if the panel still wants its cover |
| `Playback.Player.ToggleFavArtist` | player/player.js:79-83 | the artist's favourite status flips and the list stays duplicate-free |
| `Playback.Player.ToggleFavAlbum` | player/player.js:85-90 | the album key's favourite status flips and the list stays duplicate-free |
| `Playback.Player.BuildAutoQueue` | player/player.js:935-948 | the list becomes the original order. With shuffle on, the chosen track goes first and the others follow shuffled, at position 0. Otherwise the list plays in order from the chosen track |
| `Playback.Player.ReshuffleAutoQueue` | player/player.js:181-191 | the current track goes first at position 0, followed by a rearrangement of the others |
| `Playback.Player.RestoreAutoQueueOrder` | player/player.js:193-198 | the original order comes back and the position lands on the first occurrence of the playing track in it; after a run-off the position stays at the end |
| `Playback.Player.ToggleShuffle` | player/player.js:635-642 | the flag flips. Turning it on, with two or more tracks and a position inside the queue, saves the order and reshuffles; otherwise the queues are untouched. Turning it off restores the saved order, with the position on the first occurrence of the playing track, or at the end after a run-off |
| `Playback.Player.CycleLoopMode` | player/player.js:631-634 | the loop mode goes none, all, one, none |
| `Playback.Player.AddToManualQueue` | player/player.js:895-897 | the track is appended to the manual queue |
| `Playback.Player.RemoveFromManualQueue` | player/player.js:648-653 | the entry is removed from the manual queue |
| `Playback.Player.PlayTrack` | player/player.js:959-970 | the track becomes the current track and the panel follows (`ArtLogsAfter`): another track of the same album asks for no images, a new cover asks for its images, and no cover empties the panel |
| `Playback.Player.QueueFromList` | player/player.js:384 | a listing's tracks become the original order under the listing's label, with the clicked track at the position: its first place in the list with shuffle off, first in a reshuffle with shuffle on |
| `Playback.Player.PlayAlbumRow` | player/player.js:378-386 | a click on an album track queues the album's tracks under its name and plays the track, which with shuffle off sits at its own track position |
| `Playback.Player.PlayPlaylistRow` | player/player.js:557-563 | a click on a listed playlist entry queues the listed entries under the playlist's name and plays the entry; with shuffle off the position is the entry's first place among them. This is the correction under Findings |
| `Playback.Player.PlayFromManualQueue` | player/player.js:656-661 | the entry is taken out of the manual queue and played |
| `Playback.Player.PlayFromAutoQueue` | player/player.js:664-669 | the position moves to the entry and it is played |
| `Playback.Player.PlayNext` | player/player.js:1011-1029 | the queues become what `NextStep` gives, and the track it plays becomes current |
| `Playback.Player.AdvanceQueues` | player/player.js:1011-1027 | the queue half of `playNext`: the queues become what `NextStep` gives, and the track it names is a track of the library |
| `Playback.Player.PlayPrev` | player/player.js:1031-1040 | the queues become what `PrevStep` gives, and the track it plays becomes current |
| `Playback.Player.RenderView` | player/player.js:217-234 | the view comes to rest where `Settle` says and the panel shows that view's cover; when the panel's key is unchanged no images are asked for or dropped |
| `Playback.Player.GoBack` | player/player.js:209-215 | with no history nothing changes; otherwise the last view is popped and rendered. An unchanged panel key leaves the image logs alone |
| `Playback.Player.StepBack` | player/player.js:211-213 | the last remembered view becomes current and leaves the history, keeping the invariant |
| `Playback.Player.Navigate` | player/player.js:202-207 | the current view is pushed, the new one rendered |
| `Playback.Player.ToggleQueueView` | player/player.js:167-170 | the queue button goes back from the queue view, changing nothing when there is no history, and opens it from any other view |
| `Playback.Player.CreatePlaylist` | player/player.js:507-513 | a non-blank name appends an empty playlist with the trimmed name; a cancelled or blank prompt changes nothing |
| `Playback.Player.CreatePlaylistWith` | player/player.js:904-910 | a non-blank name appends a playlist holding the track |
| `Playback.Player.AddToPlaylist` | player/player.js:899-903 | the track is appended to that playlist and no other playlist changes |
| `Playback.Player.RemoveFromPlaylist` | player/player.js:549-555 | the entry is removed from that playlist only, and the view is rendered again |
| `Playback.Player.DeletePlaylist` | player/player.js:495-503 | a confirmed delete removes the playlist and renders again; a declined one changes nothing |
| `Findings.NextStepAsWritten` | player/player.js:1011-1029 | as written: without looping, every press past the end moves the position one further |
| `Findings.PrevStepAsWritten` | player/player.js:1031-1040 | as written: previous throws exactly when the position it steps back to is still past the end |
| `Findings.NextStepsAsWritten` | player/player.js:1011-1029 | as written: repeated presses never move the position below -1 and never change the queue |
| `Findings.RunOffAsWritten` | player/player.js:1022-1040 | as written: each press past the end adds one to the position, and after two such presses previous throws |
| `Findings.PrevAfterRunOffAsWritten` | player/player.js:1022-1040 | on a one-track queue, next twice then previous throws as written, and plays the track again when corrected |
| `Findings.ShuffleOnAsWritten` | player/player.js:181-191 | as written: the reshuffle runs exactly when the queue has two tracks and the position is not negative. The head is the track at the position, or a missing entry for a position at the end, and the rest holds every other track |
| `Findings.ShuffleOnAfterRunOffAsWritten` | player/player.js:636-639 | after a run-off, turning shuffle on as written puts a missing entry at the head, followed by every real track in shuffled order |
| `Findings.PlayTrackAsWritten` | player/player.js:154-163 | as written: `playTrack` records the track and then throws exactly when the reference names no track of the library |
| `Findings.PlaylistRowAsWritten` | player/player.js:557-563 | as written with shuffle off: every playlist entry is queued, and the position is the clicked entry's first place |
| `Findings.StalePlaylistEntryAsWritten` | player/player.js:532-563 | a playlist of a track and a stale entry: as written, the next press after the track plays the stale entry and throws; queuing the listed entries, it stops at the end |
| `Findings.RestoreAsWritten` | player/player.js:193-198 | as written: the restore throws exactly when there is a saved order and the position is outside the queue. The order has already been restored when it throws |
| `Findings.ShuffleOffAfterRunOffAsWritten` | player/player.js:640-642 | after a run-off with shuffle on, turning shuffle off as written throws |

## Left out

- File system, HTTP and the browser are not modelled. Directory listings are a tree value, the disk is a map from path to bytes, and responses are values. `fs.existsSync`, `statSync`, `createReadStream`, Express, `sharp` and its `sendFile` fallback, the DOM, the `Audio` element, MediaSession, `fetch`, and `localStorage` (saves are no-ops) are all outside the model.
- `path.join` and `path.resolve` are modelled only in part. Paths are taken as already resolved, so `.` and `..` segments are not normalised. Joining puts one `/` between the parts, and no extra one when the directory already ends in `/`.
- `Scanner.ScannedPathsInsideRoot`: a music root that ends in the separator (`/`, a drive root such as `D:\`) is excluded. There `validatePath` asks for a doubled separator that `path.join` never writes, so the source refuses every track and cover path (`Scanner.RootEndingInSepRefusesAll`).
- `Server.ScannedStreamNeverForbidden`: excludes a root ending in the separator, for which the stream route answers 403 for every track.
- `Server.ScannedCoverNeverForbidden`: excludes a root ending in the separator, for which the cover route answers 403 for every album with a cover.
- `Scanner.ScanLibrary`: failing directory listings are not modelled. `fs.readdirSync` throws when the root, an artist folder or an album folder cannot be read, or when the root is a file (lib/scanner.js:12, 21, 32, with no `try`). The source then fails at startup. The model's listing can only be missing altogether (`None`, the `existsSync` test), which gives an empty library.
- `Scanner.ScanLibrary`: `localeCompare` at base sensitivity is a caller-supplied rank `collate`, not Unicode collation. The model proves the order under that rank.
- `Server.StreamResponse`: the response to a NaN Range bound is not modelled. The handler passes NaN into the header text and into `createReadStream`, whose behaviour with NaN bounds lies outside the source. The model only proves that such a request is never answered 416.
- `Text.ParseIntJs`: values beyond 2^53 are exact here, but in JavaScript they lose precision. A query parameter given twice (an array) is not modelled.
- `Text.NatToString`: JavaScript renders numbers of 10^21 and above in exponent notation; the model renders all digits.
- `Playback.ShuffleArray`: `Math.random` is not modelled. Each swap partner is any position up to the current one, so only "the result is a permutation" is proved, not uniformity.
- `Playback.Player.PlayTrack`: the audio source, now-playing text, media session, row highlight and queue re-render are left out. Only the current track and the art panel are modelled.
- `Playback.Player.RenderView`: the HTML each view renders is left out. Only the view's cover, a missing playlist's return to the previous view, and the art panel are modelled.
- `Playback.Player.Navigate`: it requires an artist or album view to name an existing entry. Those views are only opened from rendered lists, and the source would throw otherwise.
- `Playback.Player.UpdateArt`: the fade-in timers and the panel's pixel size are left out. The size is a field, already multiplied by the device pixel ratio and rounded.
- `sameRef` is not modelled as a function: track references are a datatype, and it is their equality.
- `Playback.Player.ToggleShuffle`: queue rendering after a toggle is left out.
- `Playback.Player.BuildAutoQueue`: it requires every reference in the list to name a track. The corrected callers pass only listed entries; the playlist row as written passes stale ones too, which `Findings.StalePlaylistEntryAsWritten` models.
- The All Tracks view's row click is not given a method of its own: it is `QueueFromList` over every track of the library, labelled `All Tracks`, followed by `PlayTrack`.
- Favourite album keys read from storage that no longer name an album are not modelled; the favourites view skips them.
- The audio element's `ended` event is `PlayNext`, and the three-second test of `playPrev` is a boolean input.
- `lib/auth.js`, `build.js`, `init-users.js`, `assets/js/code.js`, and the settings and admin views are not part of this model.

## Findings

| source | as written | input that shows it | evidently intended | confidence | as-written member | corrected member |
|---|---|---|---|---|---|---|
| player/player.js:1022-1040 | without looping, `playNext` increments `autoQueueIndex` past the end on every press. `playPrev` reads `autoQueue[autoQueueIndex - 1]` with no length check | a one-track queue at position 0, loop off: press next twice (position 2), then previous. It reads `autoQueue[1]`, which is `undefined`, and throws on `.artistIdx` | the position stays at the end once playback runs off it, so previous plays the last track | not executed | `Findings.RunOffAsWritten` | `Playback.RunOffIsFinal` |
| player/player.js:636-639 | the shuffle-on guard checks `autoQueueIndex >= 0` only, so `reshuffleAutoQueue` runs with the position at the end | a two-track queue played to the end without looping (position 2), then shuffle on. The queue becomes `[undefined, ...]`, and `renderQueue`, called at line 644, reads `.artistIdx` of the missing head at line 605 and throws | reshuffle only when the position is inside the queue | not executed | `Findings.ShuffleOnAfterRunOffAsWritten` | `Playback.Player.ToggleShuffle` |
| player/player.js:557-563 | a click on a playlist row queues `pl.tracks` whole, though the view at 532-534 lists only the entries that still name a track | a playlist `[v, s]` where `s` names a track a rescan removed; click `v`, loop off. When `v` ends, next plays `s`: `playTrack` sets it as current, then `updateNowPlaying` reads `.title` of a missing track and throws. If the entry's artist or album is gone as well and no view sets a cover, the stale current track also makes later art updates throw | queue only the entries the view lists | not executed | `Findings.StalePlaylistEntryAsWritten` | `Playback.Player.PlayPlaylistRow` |
| player/player.js:193-198 | `restoreAutoQueueOrder` reads `cur.artistIdx` of `autoQueue[autoQueueIndex]`. After a run-off that entry is `undefined` | shuffle on, a queue played to the end (position equal to its length), then shuffle off. It throws after the original order has been copied back, and the queue view is not redrawn | the original order comes back and the position stays at its end | not executed | `Findings.ShuffleOffAfterRunOffAsWritten` | `Playback.Player.RestoreAutoQueueOrder` |

The rest of the model uses the corrected steps:
- `Playback.NextStep` holds the position at the queue's length after a run-off.
- `Playback.Player.ToggleShuffle` reshuffles only for a position inside the queue.
- `Playback.Player.RestoreAutoQueueOrder` keeps a position at the end at the end of the restored order.
- `Playback.Player.PlayPlaylistRow` queues only the listed entries of a playlist.
