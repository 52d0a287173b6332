/** The decisions of the two media routes of the HTTP server: `GET /api/stream/:a/:al/:t`
    (index checks, path check, missing file, and a single byte range) and
    `GET /api/cover/:a/:al` (index, cover and path checks, and the width parameter).
    Each handler is modelled as the response it builds; the file system is a map from
    resolved paths to file contents, so `statSync` fails exactly for a path that is not
    a key. */
module Server {
  import opened Text
  import opened Scanner

  newtype byte = x: int | 0 <= x < 256

  type Disk = map<string, seq<byte>>

  // ---------------------------------------------------------------------------
  // Route parameters

  /** `library[i]` is an entry exactly when `i` is a position of the array; every entry
      is an object, hence truthy. */
  predicate IsIndex(i: Option<int>, length: nat) {
    i.Some? && 0 <= i.value < length
  }

  /** The track the three route parameters name, if any: each is read with `parseInt`
      and must be a position at its level. */
  function LookupTrack(library: seq<Artist>, a: string, al: string, t: string): (r: Option<Track>)
    ensures r.Some? <==>
      IsIndex(ParseIntJs(a), |library|) && IsIndex(ParseIntJs(al), |library[ParseIntJs(a).value].albums|)
      && IsIndex(ParseIntJs(t), |library[ParseIntJs(a).value].albums[ParseIntJs(al).value].tracks|)
    ensures r.Some? ==> r.value == library[ParseIntJs(a).value].albums[ParseIntJs(al).value].tracks[ParseIntJs(t).value]
    ensures r.Some? ==> exists artist, album :: artist in library && album in artist.albums && r.value in album.tracks
  {
    var ai, ali, ti := ParseIntJs(a), ParseIntJs(al), ParseIntJs(t);
    if IsIndex(ai, |library|) && IsIndex(ali, |library[ai.value].albums|)
       && IsIndex(ti, |library[ai.value].albums[ali.value].tracks|)
    then
      var artist := library[ai.value];
      var album := artist.albums[ali.value];
      assert artist in library && album in artist.albums;
      Some(album.tracks[ti.value])
    else None
  }

  /** The album the two route parameters of the cover route name, if any. */
  function LookupAlbum(library: seq<Artist>, a: string, al: string): (r: Option<Album>)
    ensures r.Some? <==> IsIndex(ParseIntJs(a), |library|) && IsIndex(ParseIntJs(al), |library[ParseIntJs(a).value].albums|)
    ensures r.Some? ==> r.value == library[ParseIntJs(a).value].albums[ParseIntJs(al).value]
    ensures r.Some? ==> exists artist :: artist in library && r.value in artist.albums
  {
    var ai, ali := ParseIntJs(a), ParseIntJs(al);
    if IsIndex(ai, |library|) && IsIndex(ali, |library[ai.value].albums|) then
      var artist := library[ai.value];
      assert artist in library;
      Some(artist.albums[ali.value])
    else None
  }

  // ---------------------------------------------------------------------------
  // The Range header (a single `bytes=<first>-<last>` range)

  /** What the Range comparisons decide. `parseInt` gives NaN for a field with no digits,
      and every comparison with NaN is false, so a NaN bound that no test rejects is
      passed on to the file stream: that case is kept apart, as `Unparsed`. */
  datatype RangeOutcome =
    | Satisfiable(first: nat, last: nat)
    | Unsatisfiable
    | Unparsed(parsedFirst: Option<int>, parsedLast: Option<int>)

  /** `x >= y` and `x > y` where `None` stands for NaN. */
  predicate AtLeast(x: Option<int>, y: int) {
    x.Some? && x.value >= y
  }

  predicate Above(x: Option<int>, y: Option<int>) {
    x.Some? && y.Some? && x.value > y.value
  }

  /** The two bounds the handler reads from a non-empty Range header: the first at most
      `bytes=` is removed, the rest split at `-`; a missing or empty second field means
      the last byte of the file. */
  function RangeBounds(range: string, size: nat): (r: (Option<int>, Option<int>))
    ensures r.0.Some? ==> r.0.value >= 0
    ensures r.1.Some? ==> r.1.value >= 0 || r.1.value == size - 1
  {
    var parts := SplitTwo(ReplaceFirst(range, "bytes=", ""), '-');
    var first := ParseIntJs(parts.0);
    var last := if parts.1.Some? && parts.1.value != "" then ParseIntJs(parts.1.value) else Some(size - 1);
    (first, last)
  }

  /** The comparisons of the handler: 416 when the first byte or the last byte lies at
      or beyond the end of the file, or the first lies after the last. */
  function DecideRange(range: string, size: nat): (r: RangeOutcome)
    ensures r.Satisfiable? ==> r.first <= r.last < size
    ensures r.Unparsed? ==> r.parsedFirst.None? || r.parsedLast.None?
  {
    var (first, last) := RangeBounds(range, size);
    if AtLeast(first, size) || AtLeast(last, size) || Above(first, last) then Unsatisfiable
    else if first.None? || last.None? then Unparsed(first, last)
    else Satisfiable(first.value, last.value)
  }

  // ---------------------------------------------------------------------------
  // The stream route

  datatype StreamOutcome =
    | StreamNotFound(error: string)
    | StreamForbidden
    | Whole(data: seq<byte>)
    | Partial(data: seq<byte>, first: nat, last: nat)
    | RangeNotSatisfiable(size: nat)
    | UnparsedRange(path: string, size: nat, parsedFirst: Option<int>, parsedLast: Option<int>)

  /** The stream handler's decision. `range` is the Range header, `None` when absent; an
      empty header is falsy and is treated as absent. */
  function Stream(library: seq<Artist>, root: string, disk: Disk, a: string, al: string, t: string,
                  range: Option<string>): StreamOutcome
  {
    match LookupTrack(library, a, al, t)
    case None => StreamNotFound("Not found")
    case Some(track) =>
      if !ValidatePath(track.absolutePath, root) then StreamForbidden
      else if track.absolutePath !in disk then StreamNotFound("File not found")
      else
        var data := disk[track.absolutePath];
        if range.None? || range.value == "" then Whole(data)
        else
          match DecideRange(range.value, |data|)
          case Unsatisfiable => RangeNotSatisfiable(|data|)
          case Unparsed(first, last) => UnparsedRange(track.absolutePath, |data|, first, last)
          case Satisfiable(first, last) => Partial(data, first, last)
  }

  datatype Body = JsonError(message: string) | Data(bytes: seq<byte>) | NoBody

  datatype Response = Response(status: nat, headers: seq<(string, string)>, body: Body)

  /** No header is set twice. */
  predicate DistinctHeaders(headers: seq<(string, string)>) {
    forall i, j | 0 <= i < j < |headers| :: headers[i].0 != headers[j].0
  }

  /** The response the handler sends for an outcome. For a NaN bound the file stream's
      own treatment of NaN decides, and that is not modelled. */
  function StreamResponse(o: StreamOutcome): Response
    requires !o.UnparsedRange?
    requires o.Partial? ==> o.first <= o.last < |o.data|
  {
    match o
    case StreamNotFound(error) => Response(404, [], JsonError(error))
    case StreamForbidden => Response(403, [], JsonError("Forbidden"))
    case Whole(data) =>
      Response(200, [("Content-Length", NatToString(|data|)), ("Content-Type", "audio/flac"),
                     ("Accept-Ranges", "bytes")], Data(data))
    case Partial(data, first, last) =>
      Response(206, [("Content-Range", "bytes " + NatToString(first) + "-" + NatToString(last) + "/" + NatToString(|data|)),
                     ("Accept-Ranges", "bytes"), ("Content-Length", NatToString(last - first + 1)),
                     ("Content-Type", "audio/flac")], Data(data[first..last + 1]))
    case RangeNotSatisfiable(size) => Response(416, [("Content-Range", "bytes */" + NatToString(size))], NoBody)
  }

  // ---------------------------------------------------------------------------
  // What the stream route promises

  /** `"bytes=" + x` loses its prefix. */
  lemma DropBytesPrefix(x: string)
    ensures ReplaceFirst("bytes=" + x, "bytes=", "") == x
  {
    var s := "bytes=" + x;
    assert OccursAt(s, "bytes=", 0) by { assert s[0..6] == "bytes="; }
    assert s[6..] == x;
  }

  /** The bounds read from `bytes=<digits>-<rest>`. */
  lemma RangeFields(digits: string, rest: string, size: nat)
    requires AllDigits(digits) && '-' !in rest
    ensures RangeBounds("bytes=" + digits + "-" + rest, size)
         == (ParseIntJs(digits), if rest != "" then ParseIntJs(rest) else Some(size - 1))
  {
    var x := digits + "-" + rest;
    assert "bytes=" + digits + "-" + rest == "bytes=" + x;
    DropBytesPrefix(x);
    SplitAfterDigits(digits, rest);
  }

  /** A request for bytes `first` through `last` is served exactly when that span lies
      inside the file, and is otherwise refused with 416. */
  lemma ClosedRange(first: nat, last: nat, size: nat)
    ensures DecideRange("bytes=" + NatToString(first) + "-" + NatToString(last), size)
         == if first <= last < size then Satisfiable(first, last) else Unsatisfiable
  {
    DigitsHaveNoDash(last);
    RangeFields(NatToString(first), NatToString(last), size);
    ParseNat(first);
    ParseNat(last);
  }

  /** `bytes=<first>-` runs to the last byte of the file. */
  lemma OpenRange(first: nat, size: nat)
    ensures DecideRange("bytes=" + NatToString(first) + "-", size)
         == if first < size then Satisfiable(first, size - 1) else Unsatisfiable
  {
    RangeFields(NatToString(first), "", size);
    assert "bytes=" + NatToString(first) + "-" + "" == "bytes=" + NatToString(first) + "-";
    ParseNat(first);
  }

  /** A suffix range `bytes=-<n>` is not supported: it is refused with 416 when `n`
      reaches the file size, and otherwise leaves the first byte NaN. */
  lemma SuffixRange(n: nat, size: nat)
    ensures DecideRange("bytes=-" + NatToString(n), size)
         == if n >= size then Unsatisfiable else Unparsed(None, Some(n))
  {
    DigitsHaveNoDash(n);
    RangeFields("", NatToString(n), size);
    NoFirstField(NatToString(n));
    ParseNat(n);
    NoDigitsNaN();
  }

  lemma NoFirstField(x: string)
    ensures "bytes=" + "" + "-" + x == "bytes=-" + x
  {
    assert "bytes=" + "" == "bytes=";
    assert "bytes=" + "-" == "bytes=-";
  }

  lemma NoDigitsNaN()
    ensures ParseIntJs("") == None
  {
    assert DigitRun("") == 0;
  }

  /** Every response sets each header at most once, and every response with a body
      says how long the body is, rightly: for 206 the body is exactly bytes `first`
      through `last` of the file and `Content-Range` names that span and the file size. */
  lemma StreamResponseLength(o: StreamOutcome)
    requires !o.UnparsedRange?
    requires o.Partial? ==> o.first <= o.last < |o.data|
    ensures DistinctHeaders(StreamResponse(o).headers)
    ensures var resp := StreamResponse(o);
      resp.body.Data? ==> ("Content-Length", NatToString(|resp.body.bytes|)) in resp.headers
    ensures var resp := StreamResponse(o);
      o.Partial? ==> (
        && resp.status == 206 && resp.body == Data(o.data[o.first..o.last + 1])
        && ("Content-Range", "bytes " + NatToString(o.first) + "-" + NatToString(o.last) + "/" + NatToString(|o.data|))
           in resp.headers)
  {
  }

  /** Every outcome the handler reaches other than a NaN bound is one it can respond to. */
  lemma StreamOutcomeRespondable(library: seq<Artist>, root: string, disk: Disk, a: string, al: string, t: string,
                                 range: Option<string>)
    ensures var o := Stream(library, root, disk, a, al, t, range);
      o.Partial? ==> o.first <= o.last < |o.data|
  {
  }

  /** The checks come in order: a bad index is reported before the path check, and an
      absent or empty Range header gets the whole file. */
  lemma StreamWithoutRange(library: seq<Artist>, root: string, disk: Disk, a: string, al: string, t: string,
                           range: Option<string>)
    requires range.None? || range == Some("")
    ensures var o := Stream(library, root, disk, a, al, t, range);
      match LookupTrack(library, a, al, t)
      case None => o == StreamNotFound("Not found")
      case Some(track) =>
        (!ValidatePath(track.absolutePath, root) ==> o == StreamForbidden)
        && (ValidatePath(track.absolutePath, root) && track.absolutePath !in disk ==> o == StreamNotFound("File not found"))
        && (ValidatePath(track.absolutePath, root) && track.absolutePath in disk ==>
              o == Whole(disk[track.absolutePath]) && StreamResponse(o).status == 200)
  {
  }

  /** The indices the browser puts in a stream URL are the track's positions, so the
      server finds the very track the browser listed. */
  lemma StreamUrlResolves(library: seq<Artist>, ai: nat, ali: nat, ti: nat)
    requires ai < |library| && ali < |library[ai].albums| && ti < |library[ai].albums[ali].tracks|
    ensures LookupTrack(library, NatToString(ai), NatToString(ali), NatToString(ti))
         == Some(library[ai].albums[ali].tracks[ti])
  {
    ParseNat(ai);
    ParseNat(ali);
    ParseNat(ti);
  }

  /** A library built by the scanner never draws 403: every track path it records lies
      below the music root. */
  lemma ScannedStreamNeverForbidden(root: string, listing: seq<Entry>, collate: string -> int, disk: Disk,
                                    a: string, al: string, t: string, range: Option<string>)
    requires !EndsInSep(root)
    ensures Stream(Scan(root, Some(listing), collate), root, disk, a, al, t, range) != StreamForbidden
  {
    var library := Scan(root, Some(listing), collate);
    forall ai: nat, ali: nat, ti: nat | ai < |library| && ali < |library[ai].albums| && ti < |library[ai].albums[ali].tracks|
      ensures ValidatePath(library[ai].albums[ali].tracks[ti].absolutePath, root)
    {
      ScannedPathsInsideRoot(root, listing, collate, ai, ali, ti);
    }
    ContainedStreamNeverForbidden(library, root, disk, a, al, t, range);
  }

  /** Only a track path outside the root draws 403. */
  lemma ContainedStreamNeverForbidden(library: seq<Artist>, root: string, disk: Disk, a: string, al: string, t: string,
                                      range: Option<string>)
    requires forall ai: nat, ali: nat, ti: nat
      | ai < |library| && ali < |library[ai].albums| && ti < |library[ai].albums[ali].tracks|
      :: ValidatePath(library[ai].albums[ali].tracks[ti].absolutePath, root)
    ensures Stream(library, root, disk, a, al, t, range) != StreamForbidden
  {
    if LookupTrack(library, a, al, t).Some? {
      var ai, ali, ti := TrackPosition(library, a, al, t);
    }
  }

  /** The positions behind a successful lookup. */
  lemma TrackPosition(library: seq<Artist>, a: string, al: string, t: string) returns (ai: nat, ali: nat, ti: nat)
    requires LookupTrack(library, a, al, t).Some?
    ensures ai == ParseIntJs(a).value && ali == ParseIntJs(al).value && ti == ParseIntJs(t).value
    ensures ai < |library| && ali < |library[ai].albums| && ti < |library[ai].albums[ali].tracks|
    ensures LookupTrack(library, a, al, t) == Some(library[ai].albums[ali].tracks[ti])
  {
    ai, ali, ti := ParseIntJs(a).value, ParseIntJs(al).value, ParseIntJs(t).value;
  }

  // ---------------------------------------------------------------------------
  // The cover route

  const DefaultWidth: int := 400
  const MinWidth: int := 50
  const MaxWidth: int := 1200

  /** `parseInt(w, 10) || 400`, clamped into [50, 1200]; an absent `w` reads as NaN. */
  function CoverWidth(w: Option<string>): (r: int)
    ensures MinWidth <= r <= MaxWidth
  {
    var parsed := if w.Some? then ParseIntJs(w.value) else None;
    var width := if parsed.None? || parsed.value == 0 then DefaultWidth else parsed.value;
    if width < MinWidth then MinWidth else if width > MaxWidth then MaxWidth else width
  }

  datatype CoverOutcome = CoverNotFound(error: string) | CoverForbidden | Resized(path: string, width: int)

  function Cover(library: seq<Artist>, root: string, a: string, al: string, w: Option<string>): CoverOutcome {
    match LookupAlbum(library, a, al)
    case None => CoverNotFound("Not found")
    case Some(album) =>
      if !album.hasCover then CoverNotFound("No cover")
      else
        var coverPath := Join(album.absolutePath, "cover.jpg");
        if !ValidatePath(coverPath, root) then CoverForbidden
        else Resized(coverPath, CoverWidth(w))
  }

  /** Every width the player asks for is honoured: the thumbnail (80), the full-size image
      (capped at 1200 and asked for only above 80) and the media-session artwork (96, 256,
      512); without `w`, or with `w=0`, the width is 400. */
  lemma CoverWidthOfRequest(n: nat)
    ensures MinWidth <= n <= MaxWidth ==> CoverWidth(Some(NatToString(n))) == n
    ensures n > MaxWidth ==> CoverWidth(Some(NatToString(n))) == MaxWidth
    ensures n < MinWidth ==> CoverWidth(Some(NatToString(n))) == if n == 0 then DefaultWidth else MinWidth
    ensures CoverWidth(None) == DefaultWidth
  {
    ParseNat(n);
  }

  /** The cover checks in order: bad indices, then a missing cover, then the path. */
  lemma CoverChecksInOrder(library: seq<Artist>, root: string, ai: nat, ali: nat, w: Option<string>)
    ensures var o := Cover(library, root, NatToString(ai), NatToString(ali), w);
      if ai >= |library| || ali >= |library[ai].albums| then o == CoverNotFound("Not found")
      else if !library[ai].albums[ali].hasCover then o == CoverNotFound("No cover")
      else if !ValidatePath(Join(library[ai].albums[ali].absolutePath, "cover.jpg"), root) then o == CoverForbidden
      else o == Resized(Join(library[ai].albums[ali].absolutePath, "cover.jpg"), CoverWidth(w))
  {
    ParseNat(ai);
    ParseNat(ali);
  }

  /** A library built by the scanner never draws 403 on the cover route either. */
  lemma ScannedCoverNeverForbidden(root: string, listing: seq<Entry>, collate: string -> int,
                                   a: string, al: string, w: Option<string>)
    requires !EndsInSep(root)
    ensures Cover(Scan(root, Some(listing), collate), root, a, al, w) != CoverForbidden
  {
    var library := Scan(root, Some(listing), collate);
    var ai, ali := ParseIntJs(a), ParseIntJs(al);
    if LookupAlbum(library, a, al).Some? {
      ScannedPathsInsideRoot(root, listing, collate, ai.value, ali.value, 0);
    }
  }
}
