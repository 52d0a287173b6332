/** The music library scanner: how directory and file names become artists, albums
    and tracks, the order they are listed in, the projection sent to the browser, and
    the containment check that guards every file the server opens. */
module Scanner {
  import opened Text
  import opened Sorting
  import opened Lists

  /** A directory entry as a listing of the file system reports it. */
  datatype Entry = File(name: string) | Dir(name: string, entries: seq<Entry>)

  datatype Track = Track(number: nat, title: string, absolutePath: string)
  datatype Album = Album(name: string, year: Option<nat>, dirName: string, absolutePath: string,
                         hasCover: bool, tracks: seq<Track>)
  datatype Artist = Artist(name: string, absolutePath: string, albums: seq<Album>)

  /** What a track file name yields: `number` and `title`. */
  datatype TrackName = TrackName(number: nat, title: string)
  /** What an album directory name yields: `name` and `year` (null is `None`). */
  datatype AlbumName = AlbumName(name: string, year: Option<nat>)

  /** The path separator. Paths are taken as already resolved. */
  const Sep: char := '/'

  /** Whether a resolved path ends in the separator, as only a file-system root does. */
  predicate EndsInSep(path: string) {
    path != [] && path[|path| - 1] == Sep
  }

  /** `path.join` of a resolved directory and an entry name: one separator between them,
      which is not doubled when the directory already ends in one. */
  function Join(dir: string, name: string): string {
    if EndsInSep(dir) then dir + name else dir + [Sep] + name
  }

  // ---------------------------------------------------------------------------
  // Path containment

  /** `validatePath`: the resolved path lies strictly below the music root. */
  function ValidatePath(resolved: string, root: string): (ok: bool)
    ensures ok <==> exists rel :: resolved == root + [Sep] + rel
  {
    var prefix := root + [Sep];
    if StartsWith(resolved, prefix) then
      assert resolved == prefix + resolved[|prefix|..];
      true
    else
      assert forall rel :: (root + [Sep] + rel)[..|prefix|] == prefix;
      false
  }

  /** The root itself is refused, and so is any sibling whose name merely extends the
      root's (`/music2/x` against `/music`). */
  lemma ValidatePathRejectsRootAndSiblings(root: string, c: char, rest: string)
    requires c != Sep
    ensures !ValidatePath(root, root)
    ensures !ValidatePath(root + [c] + rest, root)
  {
    assert (root + [c] + rest)[|root|] == c;
  }

  /** A name joined below an admitted path is admitted too. */
  lemma JoinStaysInside(path: string, root: string, name: string)
    requires ValidatePath(path, root)
    ensures ValidatePath(Join(path, name), root)
  {
    var rel :| path == root + [Sep] + rel;
    if EndsInSep(path) {
      assert Join(path, name) == root + [Sep] + (rel + name);
    } else {
      assert Join(path, name) == root + [Sep] + (rel + [Sep] + name);
    }
  }

  // ---------------------------------------------------------------------------
  // Track file names: /^(\d+)\.\s+(.+)\.flac$/i

  /** The name ends in `.flac`, compared without regard to ASCII case. */
  predicate HasFlacExtension(name: string) {
    |name| >= 5 && name[|name| - 5] == '.' && LowerAscii(name[|name| - 4]) == 'f'
    && LowerAscii(name[|name| - 3]) == 'l' && LowerAscii(name[|name| - 2]) == 'a'
    && LowerAscii(name[|name| - 1]) == 'c'
  }

  /** The track pattern matches `name` with `d` digits before the dot and `w` white-space
      characters after it; the title is what lies between those and the extension. */
  predicate TrackSplit(name: string, d: int, w: int) {
    HasFlacExtension(name) && 1 <= d && 1 <= w && d + 1 + w < |name| - 5
    && AllDigits(name[..d]) && name[d] == '.' && AllSpace(name[d + 1..d + 1 + w])
    && NoLineTerminator(name[d + 1 + w..|name| - 5])
  }

  /** `parseTrackFile`: the digit run is the track number; the white-space run is
      taken greedily, giving back one character when the title would otherwise be empty. */
  function ParseTrackFile(name: string): (r: Option<TrackName>)
    ensures r.Some? ==> HasFlacExtension(name) && |r.value.title| > 0 && NoLineTerminator(r.value.title)
  {
    if !HasFlacExtension(name) then None
    else
      var body := name[..|name| - 5];
      var d := DigitRun(body);
      if d == 0 || d == |body| || body[d] != '.' then None
      else
        var rest := body[d + 1..];
        var k := SpaceRun(rest);
        var w := if k < |rest| then k else k - 1;
        if w < 1 || !NoLineTerminator(rest[w..]) then None
        else Some(TrackName(DecimalValue(body[..d]), rest[w..]))
  }

  /** Every track comes from a match of the pattern: the number is the value of the
      digit run and the title the text between the white-space run and the extension.
      The match is returned as the lengths of the two runs. */
  lemma ParseTrackFileSound(name: string) returns (d: nat, w: nat)
    requires ParseTrackFile(name).Some?
    ensures TrackSplit(name, d, w)
    ensures ParseTrackFile(name).value == TrackName(DecimalValue(name[..d]), name[d + 1 + w..|name| - 5])
  {
    var body := name[..|name| - 5];
    d := DigitRun(body);
    var rest := body[d + 1..];
    var k := SpaceRun(rest);
    w := if k < |rest| then k else k - 1;
    NameSlices(name, d, w);
  }

  /** The pieces the parser cuts out of a name, as slices of the name itself. */
  lemma NameSlices(name: string, d: nat, w: nat)
    requires d + 1 + w <= |name| - 5
    ensures name[..|name| - 5][..d] == name[..d]
    ensures name[..|name| - 5][d + 1..][..w] == name[d + 1..d + 1 + w]
    ensures name[..|name| - 5][d + 1..][w..] == name[d + 1 + w..|name| - 5]
  {
  }

  /** Every match of the pattern makes the name a track with that digit run's value;
      the title is the shortest capture any match allows, since the white-space run is
      greedy. */
  lemma ParseTrackFileComplete(name: string, d: int, w: int)
    requires TrackSplit(name, d, w)
    ensures ParseTrackFile(name).Some?
    ensures ParseTrackFile(name).value.number == DecimalValue(name[..d])
    ensures |ParseTrackFile(name).value.title| <= |name| - 5 - (d + 1 + w)
  {
    var body := name[..|name| - 5];
    NameSlices(name, d, w);
    DigitRunIs(body, d);
    var rest := body[d + 1..];
    SpaceRunCovers(rest, w);
    var k := SpaceRun(rest);
    var w0 := if k < |rest| then k else k - 1;
    assert rest[w0..] == rest[w..][w0 - w..];
    NoLineTerminatorSuffix(rest[w..], w0 - w);
    ParseTrackFileAt(name, body, d, rest, w0);
  }

  /** `parseTrackFile` once its guards are known to pass. */
  lemma ParseTrackFileAt(name: string, body: string, d: nat, rest: string, w: nat)
    requires HasFlacExtension(name) && body == name[..|name| - 5]
    requires DigitRun(body) == d && 0 < d < |body| && body[d] == '.' && rest == body[d + 1..]
    requires w == (if SpaceRun(rest) < |rest| then SpaceRun(rest) else SpaceRun(rest) - 1)
    requires 1 <= w && NoLineTerminator(rest[w..])
    ensures ParseTrackFile(name) == Some(TrackName(DecimalValue(body[..d]), rest[w..]))
  {
  }

  // ---------------------------------------------------------------------------
  // Album directory names

  /** The `"<artist> - "` prefix is removed only when the name starts with exactly it. */
  function StripArtistPrefix(dirName: string, artistName: string): (r: string)
    ensures StartsWith(dirName, artistName + " - ") ==> artistName + " - " + r == dirName
    ensures !StartsWith(dirName, artistName + " - ") ==> r == dirName
  {
    var prefix := artistName + " - ";
    if StartsWith(dirName, prefix) then
      assert dirName == dirName[..|prefix|] + dirName[|prefix|..];
      dirName[|prefix|..]
    else dirName
  }

  /** `/\((\d{4})\)\s*$/` matches `s` at position `i`. */
  predicate YearSuffixAt(s: string, i: int) {
    0 <= i && i + 6 <= |s| && s[i] == '(' && AllDigits(s[i + 1..i + 5]) && s[i + 5] == ')'
    && AllSpace(s[i + 6..])
  }

  /** The position of the year suffix: the pattern can match at one position at most. */
  function FindYearSuffix(s: string): (r: Option<nat>)
    ensures r.Some? ==> YearSuffixAt(s, r.value)
    ensures forall i | YearSuffixAt(s, i) :: r == Some(i)
  {
    var e := |s| - TrailingSpaceRun(s);
    if e >= 6 && s[e - 6] == '(' && AllDigits(s[e - 5..e - 1]) && s[e - 1] == ')' then Some(e - 6)
    else None
  }

  /** `parseAlbumDir` */
  function ParseAlbumDir(dirName: string, artistName: string): (r: AlbumName)
    ensures r.year.None? ==> r.name == StripArtistPrefix(dirName, artistName)
  {
    var name := StripArtistPrefix(dirName, artistName);
    match FindYearSuffix(name)
    case None => AlbumName(name, None)
    case Some(i) => AlbumName(Trim(name[..i]), Some(DecimalValue(name[i + 1..i + 5])))
  }

  /** After the prefix step, a year is found exactly when the name ends in `(dddd)`
      followed by white space only; the year is those four digits and the name is the
      text before the parenthesis, trimmed. */
  lemma ParseAlbumDirYear(dirName: string, artistName: string)
    ensures var name := StripArtistPrefix(dirName, artistName);
      (ParseAlbumDir(dirName, artistName).year.Some? <==> exists i :: YearSuffixAt(name, i))
      && forall i | YearSuffixAt(name, i) ::
           ParseAlbumDir(dirName, artistName) == AlbumName(Trim(name[..i]), Some(DecimalValue(name[i + 1..i + 5])))
  {
  }

  lemma StripArtistPrefixOf(artist: string, rest: string)
    ensures StripArtistPrefix(artist + " - " + rest, artist) == rest
  {
    var prefix := artist + " - ";
    assert (prefix + rest)[..|prefix|] == prefix;
  }

  lemma YearSuffixOf(album: string, digits: string, trail: string)
    requires |digits| == 4 && AllDigits(digits) && AllSpace(trail)
    ensures var name := album + " (" + digits + ")" + trail;
      YearSuffixAt(name, |album| + 1) && name[..|album| + 1] == album + " "
      && name[|album| + 2..|album| + 6] == digits
  {
    var name := album + " (" + digits + ")" + trail;
    var i := |album| + 1;
    assert name == (album + " ") + ("(" + digits + ")") + trail;
    assert name[i..i + 6] == "(" + digits + ")";
    assert name[i + 1..i + 5] == digits;
    assert name[i + 6..] == trail;
  }

  /** The directory name `"<artist> - <album> (<dddd>)"`, with any trailing white
      space, gives back the album name and the year. */
  lemma AlbumDirRoundTrip(artist: string, album: string, digits: string, trail: string)
    requires album != [] && !IsSpace(album[0]) && !IsSpace(album[|album| - 1])
    requires |digits| == 4 && AllDigits(digits) && AllSpace(trail)
    ensures ParseAlbumDir(artist + " - " + (album + " (" + digits + ")" + trail), artist)
            == AlbumName(album, Some(DecimalValue(digits)))
  {
    var name := album + " (" + digits + ")" + trail;
    var i := |album| + 1;
    StripArtistPrefixOf(artist, name);
    YearSuffixOf(album, digits, trail);
    ParseAlbumDirYear(artist + " - " + name, artist);
    assert Trim(name[..i]) == album by {
      TrimPadded([], album, " ");
      assert [] + album + " " == album + " ";
    }
  }

  // ---------------------------------------------------------------------------
  // Assembling the library

  /** The sort keys: track number, album year with null counted as 0, and the
      collation rank of an artist directory's name (the locale comparison, at base
      sensitivity, is a foreign call and is given as a ranking). */
  function TrackNumber(t: Track): int {
    t.number
  }

  function AlbumYearKey(a: Album): int {
    match a.year
    case Some(y) => y
    case None => 0
  }

  function CollationKey(collate: string -> int): Entry -> int {
    (e: Entry) => collate(e.name)
  }

  function ArtistCollationKey(collate: string -> int): Artist -> int {
    (a: Artist) => collate(a.name)
  }

  /** What a directory lists; a plain file lists nothing. */
  function Children(e: Entry): seq<Entry> {
    match e
    case File(_) => []
    case Dir(_, entries) => entries
  }

  function DirOnly(e: Entry): Option<Entry> {
    if e.Dir? then Some(e) else None
  }

  /** The entries that are directories, in listing order. */
  function Subdirs(entries: seq<Entry>): seq<Entry> {
    Collect(entries, DirOnly)
  }

  function EntryName(e: Entry): string {
    e.name
  }

  function Names(entries: seq<Entry>): seq<string> {
    Map(entries, EntryName)
  }

  function FlacOnly(name: string): Option<string> {
    if HasFlacExtension(name) then Some(name) else None
  }

  /** The names kept for track parsing: those ending in `.flac` in any ASCII case. */
  function FlacNames(names: seq<string>): seq<string> {
    Collect(names, FlacOnly)
  }

  function HasCover(entries: seq<Entry>): bool {
    "cover.jpg" in Names(entries)
  }

  /** The track a file of the album directory becomes, if any. */
  function TrackOfFile(albumPath: string, file: string): Option<Track> {
    match ParseTrackFile(file)
    case None => None
    case Some(t) => Some(Track(t.number, t.title, Join(albumPath, file)))
  }

  function TrackFile(albumPath: string): string -> Option<Track> {
    (file: string) => TrackOfFile(albumPath, file)
  }

  /** The album an album directory becomes, its tracks sorted by number. */
  function AlbumOf(artistName: string, artistPath: string, dir: Entry): Album {
    var albumPath := Join(artistPath, dir.name);
    var parsed := ParseAlbumDir(dir.name, artistName);
    var tracks := Collect(FlacNames(Names(Children(dir))), TrackFile(albumPath));
    Album(parsed.name, parsed.year, dir.name, albumPath, HasCover(Children(dir)), SortByKey(tracks, TrackNumber))
  }

  function AlbumDir(artistName: string, artistPath: string): Entry -> Album {
    (dir: Entry) => AlbumOf(artistName, artistPath, dir)
  }

  /** The artist an artist directory becomes, its albums sorted by year. */
  function ArtistOf(root: string, dir: Entry): Artist {
    var artistPath := Join(root, dir.name);
    var albums := Map(Subdirs(Children(dir)), AlbumDir(dir.name, artistPath));
    Artist(dir.name, artistPath, SortByKey(albums, AlbumYearKey))
  }

  /** An artist directory contributes its artist only when it has an album. */
  function ArtistIfAlbums(root: string): Entry -> Option<Artist> {
    (dir: Entry) => var a := ArtistOf(root, dir); if a.albums != [] then Some(a) else None
  }

  /** The artist directories of the root listing, sorted by name. */
  function ArtistDirs(listing: seq<Entry>, collate: string -> int): seq<Entry> {
    SortByKey(Subdirs(listing), CollationKey(collate))
  }

  /** `scanLibrary` over a listing of the music root; `None` stands for a root that
      does not exist. */
  function Scan(root: string, listing: Option<seq<Entry>>, collate: string -> int): seq<Artist> {
    match listing
    case None => []
    case Some(entries) => Collect(ArtistDirs(entries, collate), ArtistIfAlbums(root))
  }

  /** The innermost loop of `scanLibrary`: parses each `.flac` name of one album
      directory and pushes the tracks it yields. */
  method CollectTracks(albumPath: string, files: seq<string>) returns (tracks: seq<Track>)
    ensures tracks == Collect(files, TrackFile(albumPath))
  {
    tracks := [];
    var k := 0;
    while k < |files|
      invariant 0 <= k <= |files|
      invariant tracks == Collect(files[..k], TrackFile(albumPath))
    {
      var track := ParseTrackFile(files[k]);
      if track.Some? {
        tracks := tracks + [Track(track.value.number, track.value.title, Join(albumPath, files[k]))];
      }
      CollectPush(files, TrackFile(albumPath), k);
      k := k + 1;
    }
    CollectAll(files, TrackFile(albumPath));
  }

  /** One pass of the middle loop of `scanLibrary`: the album of one album directory. */
  method ScanAlbum(artistName: string, artistPath: string, albumDir: Entry) returns (album: Album)
    ensures album == AlbumOf(artistName, artistPath, albumDir)
  {
    var albumPath := Join(artistPath, albumDir.name);
    var parsed := ParseAlbumDir(albumDir.name, artistName);
    var hasCover := HasCover(Children(albumDir));
    var tracks := CollectTracks(albumPath, FlacNames(Names(Children(albumDir))));
    tracks := SortByKey(tracks, TrackNumber);
    album := Album(parsed.name, parsed.year, albumDir.name, albumPath, hasCover, tracks);
  }

  /** The middle loop of `scanLibrary`: one album per album directory, in listing order. */
  method CollectAlbums(artistName: string, artistPath: string, albumDirs: seq<Entry>) returns (albums: seq<Album>)
    ensures albums == Map(albumDirs, AlbumDir(artistName, artistPath))
  {
    albums := [];
    var j := 0;
    while j < |albumDirs|
      invariant 0 <= j <= |albumDirs|
      invariant albums == Map(albumDirs[..j], AlbumDir(artistName, artistPath))
    {
      var album := ScanAlbum(artistName, artistPath, albumDirs[j]);
      albums := albums + [album];
      MapPush(albumDirs, AlbumDir(artistName, artistPath), j);
      j := j + 1;
    }
    MapAll(albumDirs, AlbumDir(artistName, artistPath));
  }

  /** `scanLibrary`: a missing root gives the empty library; otherwise the artist
      directories are sorted, each is scanned, its albums sorted by year, and it is
      kept only when it has at least one album directory. */
  method ScanLibrary(root: string, listing: Option<seq<Entry>>, collate: string -> int)
    returns (artists: seq<Artist>)
    ensures artists == Scan(root, listing, collate)
  {
    if listing.None? {
      return [];
    }
    artists := [];
    var artistDirs := ArtistDirs(listing.value, collate);
    var i := 0;
    while i < |artistDirs|
      invariant 0 <= i <= |artistDirs|
      invariant artists == Collect(artistDirs[..i], ArtistIfAlbums(root))
    {
      var artistDir := artistDirs[i];
      var artistPath := Join(root, artistDir.name);
      var albums := CollectAlbums(artistDir.name, artistPath, Subdirs(Children(artistDir)));
      albums := SortByKey(albums, AlbumYearKey);
      if |albums| > 0 {
        artists := artists + [Artist(artistDir.name, artistPath, albums)];
      }
      CollectPush(artistDirs, ArtistIfAlbums(root), i);
      i := i + 1;
    }
    CollectAll(artistDirs, ArtistIfAlbums(root));
  }

  // ---------------------------------------------------------------------------
  // What the scan promises

  /** The names of the directory's entries that the `.flac` filter keeps. */
  lemma FlacNameOf(entries: seq<Entry>, f: string) returns (i: nat)
    requires f in FlacNames(Names(entries))
    ensures i < |entries| && entries[i].name == f && HasFlacExtension(f)
  {
    var k := CollectSource(Names(entries), FlacOnly, f);
    i := k;
  }

  /** What the `.flac` names of a listing yield under `f` is exactly what the
      entries with such a name yield. */
  lemma {:induction false} CollectFromFlacNames<T>(entries: seq<Entry>, f: string -> Option<T>)
    ensures forall t :: t in Collect(FlacNames(Names(entries)), f) <==>
      exists e :: e in entries && HasFlacExtension(e.name) && f(e.name) == Some(t)
  {
    var files := FlacNames(Names(entries));
    forall t ensures t in Collect(files, f) <==> exists e :: e in entries && HasFlacExtension(e.name) && f(e.name) == Some(t) {
      if t in Collect(files, f) {
        var k := CollectSource(files, f, t);
        var i := FlacNameOf(entries, files[k]);
        assert entries[i] in entries;
      }
      if e :| e in entries && HasFlacExtension(e.name) && f(e.name) == Some(t) {
        var i :| 0 <= i < |entries| && entries[i] == e;
        assert Names(entries)[i] == e.name;
        CollectHas(Names(entries), FlacOnly, i);
        assert e.name in files;
        var j :| 0 <= j < |files| && files[j] == e.name;
        CollectHas(files, f, j);
      }
    }
  }

  /** An album's tracks are in non-decreasing number order, with equal numbers kept in
      listing order. */
  lemma AlbumTracksOrdered(artistName: string, artistPath: string, dir: Entry)
    ensures var album := AlbumOf(artistName, artistPath, dir);
      var listed := Collect(FlacNames(Names(Children(dir))), TrackFile(Join(artistPath, dir.name)));
      && SortedByKey(album.tracks, TrackNumber)
      && forall n :: WithKey(album.tracks, TrackNumber, n) == WithKey(listed, TrackNumber, n)
  {
    SortByKeyCorrect(Collect(FlacNames(Names(Children(dir))), TrackFile(Join(artistPath, dir.name))), TrackNumber);
  }

  /** An album lists exactly the tracks its directory's entries yield: names the track
      pattern refuses are skipped without error. */
  lemma AlbumTracksMembers(artistName: string, artistPath: string, dir: Entry)
    ensures var album := AlbumOf(artistName, artistPath, dir);
      && album.absolutePath == Join(artistPath, dir.name)
      && forall t :: t in album.tracks <==>
           exists e :: e in Children(dir) && TrackOfFile(album.absolutePath, e.name) == Some(t)
  {
    var albumPath := Join(artistPath, dir.name);
    var listed := Collect(FlacNames(Names(Children(dir))), TrackFile(albumPath));
    var tracks := AlbumOf(artistName, artistPath, dir).tracks;
    ListedTracks(Children(dir), albumPath);
    SameMembers(tracks, listed);
  }

  lemma SameMembers(tracks: seq<Track>, listed: seq<Track>)
    requires tracks == SortByKey(listed, TrackNumber)
    ensures forall t :: t in tracks <==> t in listed
  {
    forall t ensures t in tracks <==> t in listed {
      assert t in tracks <==> t in multiset(listed);
    }
  }

  /** The tracks collected from a listing are exactly those its entries' names yield. */
  lemma ListedTracks(entries: seq<Entry>, albumPath: string)
    ensures forall t :: t in Collect(FlacNames(Names(entries)), TrackFile(albumPath)) <==>
      exists e :: e in entries && TrackOfFile(albumPath, e.name) == Some(t)
  {
    var listed := Collect(FlacNames(Names(entries)), TrackFile(albumPath));
    CollectFromFlacNames(entries, TrackFile(albumPath));
    forall t ensures t in listed <==> exists e :: e in entries && TrackOfFile(albumPath, e.name) == Some(t) {
      if t in listed {
        var e :| e in entries && HasFlacExtension(e.name) && TrackFile(albumPath)(e.name) == Some(t);
        assert TrackOfFile(albumPath, e.name) == Some(t);
      }
      if e :| e in entries && TrackOfFile(albumPath, e.name) == Some(t) {
        assert HasFlacExtension(e.name) && TrackFile(albumPath)(e.name) == Some(t);
      }
    }
  }

  /** A track of an album comes from one of the album directory's file names: the
      name parses, and the track's path is that name under the album's path. */
  lemma TrackSource(artistName: string, artistPath: string, dir: Entry, t: Track) returns (file: string)
    requires t in AlbumOf(artistName, artistPath, dir).tracks
    ensures file in Names(Children(dir))
    ensures ParseTrackFile(file) == Some(TrackName(t.number, t.title))
    ensures t.absolutePath == Join(Join(artistPath, dir.name), file)
  {
    var albumPath := Join(artistPath, dir.name);
    assert t in multiset(Collect(FlacNames(Names(Children(dir))), TrackFile(albumPath)));
    file := ListedTrackSource(Children(dir), albumPath, t);
  }

  lemma ListedTrackSource(entries: seq<Entry>, albumPath: string, t: Track) returns (file: string)
    requires t in Collect(FlacNames(Names(entries)), TrackFile(albumPath))
    ensures file in Names(entries)
    ensures ParseTrackFile(file) == Some(TrackName(t.number, t.title))
    ensures t.absolutePath == Join(albumPath, file)
  {
    var files := FlacNames(Names(entries));
    var k := CollectSource(files, TrackFile(albumPath), t);
    file := files[k];
    assert file in Names(entries) by {
      var i := FlacNameOf(entries, file);
      assert Names(entries)[i] == file;
    }
    TrackOfFileParts(albumPath, file, t);
  }

  lemma TrackOfFileParts(albumPath: string, file: string, t: Track)
    requires TrackFile(albumPath)(file) == Some(t)
    ensures ParseTrackFile(file) == Some(TrackName(t.number, t.title))
    ensures t.absolutePath == Join(albumPath, file)
  {
    assert TrackOfFile(albumPath, file) == Some(t);
  }

  /** An artist's albums: one per album directory, ordered by year (a missing year
      counts as 0), albums of the same year in listing order. */
  lemma ArtistAlbums(root: string, dir: Entry)
    ensures var a := ArtistOf(root, dir);
      var listed := Map(Subdirs(Children(dir)), AlbumDir(dir.name, Join(root, dir.name)));
      && a.name == dir.name && a.absolutePath == Join(root, dir.name)
      && |a.albums| == |Subdirs(Children(dir))|
      && SortedByKey(a.albums, AlbumYearKey)
      && forall y :: WithKey(a.albums, AlbumYearKey, y) == WithKey(listed, AlbumYearKey, y)
  {
    SortByKeyCorrect(Map(Subdirs(Children(dir)), AlbumDir(dir.name, Join(root, dir.name))), AlbumYearKey);
  }

  /** Every album of an artist is the album of one of its subdirectories ... */
  lemma AlbumSource(root: string, dir: Entry, al: Album) returns (d: Entry)
    requires al in ArtistOf(root, dir).albums
    ensures d in Children(dir) && d.Dir?
    ensures al == AlbumOf(dir.name, Join(root, dir.name), d)
  {
    var subdirs := Subdirs(Children(dir));
    var j := SortedMapSource(subdirs, AlbumDir(dir.name, Join(root, dir.name)), AlbumYearKey, al);
    d := subdirs[j];
    var i := CollectSource(Children(dir), DirOnly, d);
  }

  /** ... and every subdirectory gives an album, whatever its name or content. */
  lemma AlbumOfEverySubdir(root: string, dir: Entry, d: Entry)
    requires d in Children(dir) && d.Dir?
    ensures AlbumOf(dir.name, Join(root, dir.name), d) in ArtistOf(root, dir).albums
  {
    var subdirs := Subdirs(Children(dir));
    var i :| 0 <= i < |Children(dir)| && Children(dir)[i] == d;
    CollectHas(Children(dir), DirOnly, i);
    var j :| 0 <= j < |subdirs| && subdirs[j] == d;
    SortedMapHas(subdirs, AlbumDir(dir.name, Join(root, dir.name)), AlbumYearKey, j);
  }

  /** Every artist of the scan is the artist of one of the root's directories, and has
      at least one album. */
  lemma ArtistSource(root: string, listing: seq<Entry>, collate: string -> int, a: Artist) returns (d: Entry)
    requires a in Scan(root, Some(listing), collate)
    ensures d in listing && d.Dir?
    ensures a == ArtistOf(root, d) && a.albums != []
  {
    var dirs := ArtistDirs(listing, collate);
    var k := CollectSource(dirs, ArtistIfAlbums(root), a);
    d := dirs[k];
    ArtistDirSource(listing, collate, d);
  }

  /** The artist directories are directories of the root listing. */
  lemma ArtistDirSource(listing: seq<Entry>, collate: string -> int, d: Entry)
    requires d in ArtistDirs(listing, collate)
    ensures d in listing && d.Dir?
  {
    var i := FilterSortedSource(listing, DirOnly, CollationKey(collate), d);
  }

  /** Every directory of the root with at least one subdirectory gives an artist. */
  lemma ArtistOfEveryDir(root: string, listing: seq<Entry>, collate: string -> int, d: Entry)
    requires d in listing && d.Dir? && Subdirs(Children(d)) != []
    ensures ArtistOf(root, d) in Scan(root, Some(listing), collate)
  {
    var dirs := ArtistDirs(listing, collate);
    var k := ArtistDirOf(listing, collate, d);
    assert ArtistIfAlbums(root)(dirs[k]) == Some(ArtistOf(root, d)) by {
      ArtistAlbums(root, d);
    }
    CollectHas(dirs, ArtistIfAlbums(root), k);
  }

  /** A directory of the root listing is among the artist directories. */
  lemma ArtistDirOf(listing: seq<Entry>, collate: string -> int, d: Entry) returns (k: nat)
    requires d in listing && d.Dir?
    ensures k < |ArtistDirs(listing, collate)| && ArtistDirs(listing, collate)[k] == d
  {
    var i :| 0 <= i < |listing| && listing[i] == d;
    CollectHas(listing, DirOnly, i);
    var dirs := ArtistDirs(listing, collate);
    assert d in multiset(dirs);
    k :| 0 <= k < |dirs| && dirs[k] == d;
  }

  /** The scan lists the artists in collation order of their names; a missing root
      gives the empty library. */
  lemma ScanOrdered(root: string, listing: Option<seq<Entry>>, collate: string -> int)
    ensures listing.None? ==> Scan(root, listing, collate) == []
    ensures var artists := Scan(root, listing, collate);
      forall i, j | 0 <= i < j < |artists| :: collate(artists[i].name) <= collate(artists[j].name)
  {
    if listing.Some? {
      var dirs := ArtistDirs(listing.value, collate);
      SortByKeyCorrect(Subdirs(listing.value), CollationKey(collate));
      forall i | 0 <= i < |dirs| && ArtistIfAlbums(root)(dirs[i]).Some?
        ensures ArtistCollationKey(collate)(ArtistIfAlbums(root)(dirs[i]).value) == CollationKey(collate)(dirs[i])
      {
        assert ArtistIfAlbums(root)(dirs[i]).value.name == dirs[i].name;
      }
      CollectOrdered(dirs, ArtistIfAlbums(root), CollationKey(collate), ArtistCollationKey(collate));
      var artists := Collect(dirs, ArtistIfAlbums(root));
      forall i, j | 0 <= i < j < |artists| ensures collate(artists[i].name) <= collate(artists[j].name) {
        assert SortedByKey(artists, ArtistCollationKey(collate));
        assert ArtistCollationKey(collate)(artists[i]) <= ArtistCollationKey(collate)(artists[j]);
      }
    }
  }

  /** Every path the scan records lies under the music root, so `validatePath` admits
      every track and every album's cover path. A root that ends in the separator is
      the exception (`RootEndingInSepRefusesAll`). */
  lemma ScannedPathsInsideRoot(root: string, listing: seq<Entry>, collate: string -> int, ai: nat, ali: nat, ti: nat)
    requires !EndsInSep(root)
    requires ai < |Scan(root, Some(listing), collate)|
    requires ali < |Scan(root, Some(listing), collate)[ai].albums|
    ensures var album := Scan(root, Some(listing), collate)[ai].albums[ali];
      ValidatePath(Join(album.absolutePath, "cover.jpg"), root)
    ensures var album := Scan(root, Some(listing), collate)[ai].albums[ali];
      ti < |album.tracks| ==> ValidatePath(album.tracks[ti].absolutePath, root)
  {
    var artist := Scan(root, Some(listing), collate)[ai];
    var d := ArtistSource(root, listing, collate, artist);
    var album := artist.albums[ali];
    var ad := AlbumSource(root, d, album);
    assert Join(root, d.name) == root + [Sep] + d.name;
    JoinStaysInside(Join(root, d.name), root, ad.name);
    JoinStaysInside(album.absolutePath, root, "cover.jpg");
    if ti < |album.tracks| {
      var file := TrackSource(d.name, Join(root, d.name), ad, album.tracks[ti]);
      JoinStaysInside(album.absolutePath, root, file);
    }
  }

  /** Under a root that ends in the separator (`/`, a drive root), `validatePath` asks
      for a doubled separator that `path.join` never writes: no path below an entry of
      the root is admitted, so every track and cover path the scan records is refused. */
  lemma RootEndingInSepRefusesAll(root: string, name: string, rest: string)
    requires EndsInSep(root) && name != [] && name[0] != Sep
    ensures !ValidatePath(Join(root, name) + rest, root)
  {
    assert (Join(root, name) + rest)[|root|] == name[0];
  }

  // ---------------------------------------------------------------------------
  // The library as sent to the browser

  /** What the browser receives: positions, names, years, cover flags and track counts,
      and no file-system path. */
  datatype ClientTrack = ClientTrack(idx: nat, number: nat, title: string)
  datatype ClientAlbum = ClientAlbum(idx: nat, name: string, year: Option<nat>, hasCover: bool,
                                     trackCount: nat, tracks: seq<ClientTrack>)
  datatype ClientArtist = ClientArtist(idx: nat, name: string, albums: seq<ClientAlbum>)

  function ClientTrackOf(ti: nat, t: Track): ClientTrack {
    ClientTrack(ti, t.number, t.title)
  }

  function ClientAlbumOf(ali: nat, al: Album): ClientAlbum {
    ClientAlbum(ali, al.name, al.year, al.hasCover, |al.tracks|,
                seq(|al.tracks|, ti requires 0 <= ti < |al.tracks| => ClientTrackOf(ti, al.tracks[ti])))
  }

  function ClientArtistOf(ai: nat, a: Artist): ClientArtist {
    ClientArtist(ai, a.name, seq(|a.albums|, ali requires 0 <= ali < |a.albums| => ClientAlbumOf(ali, a.albums[ali])))
  }

  /** `buildClientLibrary` */
  function BuildClientLibrary(artists: seq<Artist>): seq<ClientArtist> {
    seq(|artists|, ai requires 0 <= ai < |artists| => ClientArtistOf(ai, artists[ai]))
  }

  /** The client library has the server library's shape, every `idx` is the entry's own
      position, and a track's `idx` path leads on the server to the track with the same
      number and title; `trackCount` is the album's number of tracks. */
  lemma ClientIndexesResolve(artists: seq<Artist>, ai: nat, ali: nat, ti: nat)
    ensures |BuildClientLibrary(artists)| == |artists|
    ensures ai < |artists| ==>
      var c := BuildClientLibrary(artists)[ai];
      && c.idx == ai && c.name == artists[ai].name
      && |c.albums| == |artists[ai].albums|
    ensures ai < |artists| && ali < |artists[ai].albums| ==>
      var c := BuildClientLibrary(artists)[ai].albums[ali];
      var al := artists[ai].albums[ali];
      && c.idx == ali && c.name == al.name && c.year == al.year && c.hasCover == al.hasCover
      && c.trackCount == |c.tracks| == |al.tracks|
    ensures ai < |artists| && ali < |artists[ai].albums| && ti < |artists[ai].albums[ali].tracks| ==>
      var c := BuildClientLibrary(artists)[ai].albums[ali].tracks[ti];
      var t := artists[BuildClientLibrary(artists)[ai].idx].albums[BuildClientLibrary(artists)[ai].albums[ali].idx].tracks[c.idx];
      c.idx == ti && c.number == t.number && c.title == t.title
  {
  }
}
