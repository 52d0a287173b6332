/** The browser-side playback engine: an automatic queue built from an album, a playlist
    or the whole library, with loop and shuffle modes; a manual "next up" queue that
    takes priority; a stack of views; favourite artists and albums; playlists; and the
    album-art panel, which must never show the art of a context the user has left.
    The engine's module-level variables are the fields of `Player`, and each handler is
    a method that changes them. What it hands to the browser (the audio element, the
    page, storage) is not modelled. */
module Playback {
  import opened Text
  import opened Scanner
  import opened Server

  // ---------------------------------------------------------------------------
  // Values

  /** A track by its three positions in the library. */
  datatype TrackRef = TrackRef(artistIdx: nat, albumIdx: nat, trackIdx: nat)

  datatype LoopMode = LoopNone | LoopAll | LoopOne

  datatype ViewName =
    | LibraryView | ArtistsView | ArtistView | AlbumsView | AlbumView | TracksView
    | FavArtistsView | FavAlbumsView | PlaylistsView | PlaylistView | QueueView | SettingsView

  /** `viewArgs`: nothing (`{}`), an index (`{ idx }`) or an album (`{ ai, ali }`). */
  datatype ViewArgs = NoArgs | Idx(idx: nat) | AlbumAt(ai: nat, ali: nat)

  datatype Playlist = Playlist(name: string, tracks: seq<TrackRef>)

  /** The album whose cover the art panel is to show. */
  datatype CoverRef = CoverRef(ai: nat, ali: nat)

  /** An image the art panel asked the server for. */
  datatype ArtRequest = ArtRequest(key: string, width: nat)

  /** What a step of playback does with the audio element. */
  datatype Play = Nothing | Restart | PlayRef(ref: TrackRef)

  predicate IsTrack(library: seq<ClientArtist>, r: TrackRef) {
    && r.artistIdx < |library|
    && r.albumIdx < |library[r.artistIdx].albums|
    && r.trackIdx < |library[r.artistIdx].albums[r.albumIdx].tracks|
  }

  predicate IsAlbum(library: seq<ClientArtist>, c: CoverRef) {
    c.ai < |library| && c.ali < |library[c.ai].albums|
  }

  // ---------------------------------------------------------------------------
  // Lists as the engine edits them

  /** `s.splice(i, 1)`: removes the element at `i`, if there is one. */
  function RemoveAt<T>(s: seq<T>, i: nat): (r: seq<T>)
    ensures i < |s| ==> |r| == |s| - 1 && multiset(r) == multiset(s) - multiset{s[i]}
    ensures i < |s| ==> forall j | 0 <= j < |r| :: r[j] == if j < i then s[j] else s[j + 1]
    ensures i >= |s| ==> r == s
  {
    if i < |s| then
      assert s == s[..i] + [s[i]] + s[i + 1..];
      s[..i] + s[i + 1..]
    else s
  }

  /** `s.indexOf(x)`: the first position of `x`, or -1. */
  function FirstIndex<T(==)>(s: seq<T>, x: T): (r: int)
    ensures r == -1 <==> x !in s
    ensures r != -1 ==> 0 <= r < |s| && s[r] == x && forall j | 0 <= j < r :: s[j] != x
  {
    if s == [] then -1
    else if s[0] == x then 0
    else
      var r := FirstIndex(s[1..], x);
      if r == -1 then -1 else r + 1
  }

  predicate NoDuplicates<T(==)>(s: seq<T>) {
    forall i, j | 0 <= i < j < |s| :: s[i] != s[j]
  }

  /** The favourites toggle: remove `x` where it first occurs, or append it. */
  function Toggled<T(==)>(s: seq<T>, x: T): seq<T> {
    var i := FirstIndex(s, x);
    if i >= 0 then RemoveAt(s, i) else s + [x]
  }

  /** Toggling flips whether `x` is a favourite, touches no other entry, and keeps the
      list free of duplicates. */
  lemma ToggledFlips<T>(s: seq<T>, x: T)
    requires NoDuplicates(s)
    ensures NoDuplicates(Toggled(s, x))
    ensures x in Toggled(s, x) <==> x !in s
    ensures forall y | y != x :: y in Toggled(s, x) <==> y in s
  {
    var t := Toggled(s, x);
    var i := FirstIndex(s, x);
    if i >= 0 {
      forall y | y != x ensures y in t <==> y in s {
        assert y in multiset(t) <==> y in multiset(s);
      }
    }
  }

  /** A favourite added by mistake is removed by a second toggle, leaving the list as
      it was. */
  lemma ToggleTwice<T>(s: seq<T>, x: T)
    requires x !in s
    ensures Toggled(Toggled(s, x), x) == s
  {
    var t := s + [x];
    assert FirstIndex(t, x) == |s| by {
      assert t[|s|] == x;
    }
    assert t[..|s|] == s;
  }

  /** The key of a favourite album and of the art panel: `ai + '-' + ali`. */
  function AlbumKey(ai: nat, ali: nat): string {
    NatToString(ai) + "-" + NatToString(ali)
  }

  /** How the favourite-albums view reads a key back: split at `-`, then `parseInt`
      each part; a missing second part is `undefined`, which reads as NaN. */
  function ParseAlbumKey(k: string): (Option<int>, Option<int>) {
    var parts := SplitTwo(k, '-');
    (ParseIntJs(parts.0), if parts.1.Some? then ParseIntJs(parts.1.value) else None)
  }

  /** Reading a key back gives the album it was made from, so two albums never share
      a key. */
  lemma AlbumKeyRoundTrip(ai: nat, ali: nat)
    ensures ParseAlbumKey(AlbumKey(ai, ali)) == (Some(ai), Some(ali))
    ensures forall bi: nat, bli: nat :: AlbumKey(bi, bli) == AlbumKey(ai, ali) ==> bi == ai && bli == ali
  {
    DigitsHaveNoDash(ali);
    SplitAfterDigits(NatToString(ai), NatToString(ali));
    ParseNat(ai);
    ParseNat(ali);
    forall bi: nat, bli: nat | AlbumKey(bi, bli) == AlbumKey(ai, ali) ensures bi == ai && bli == ali {
      DigitsHaveNoDash(bli);
      SplitAfterDigits(NatToString(bi), NatToString(bli));
      ParseNat(bi);
      ParseNat(bli);
    }
  }

  // ---------------------------------------------------------------------------
  // The queues

  datatype Queues = Queues(auto: seq<TrackRef>, index: int, original: seq<TrackRef>, manual: seq<TrackRef>)

  /** The position in the automatic queue is -1 before any queue is built, and otherwise
      at most the queue's length (the length itself once playback ran off the end). */
  predicate QueueIndexOk(q: Queues) {
    IndexOk(q.auto, q.index)
  }

  predicate IndexOk(auto: seq<TrackRef>, index: int) {
    -1 <= index <= |auto| && (index == -1 ==> auto == [])
  }

  /** `playNext`. Under `one` the track restarts. Otherwise the head of the manual queue
      plays first; else the index advances, wrapping to 0 under `all`, and otherwise
      stopping at the end of the queue. */
  function NextStep(q: Queues, loop: LoopMode): (r: (Queues, Play))
    requires QueueIndexOk(q)
    ensures QueueIndexOk(r.0) && r.0.auto == q.auto && r.0.original == q.original
    ensures r.1.PlayRef? && r.0.manual == q.manual ==> 0 <= r.0.index < |q.auto| && r.1.ref == q.auto[r.0.index]
    ensures loop == LoopOne ==> r == (q, Restart)
    ensures loop != LoopOne && q.manual != [] ==> r == (q.(manual := q.manual[1..]), PlayRef(q.manual[0]))
    ensures loop != LoopOne && q.manual == [] && q.auto == [] ==> r == (q, Nothing)
    ensures loop != LoopOne && q.manual == [] && q.index + 1 < |q.auto| ==>
      r == (q.(index := q.index + 1), PlayRef(q.auto[q.index + 1]))
    ensures loop == LoopAll && q.manual == [] && q.auto != [] && q.index + 1 >= |q.auto| ==>
      r == (q.(index := 0), PlayRef(q.auto[0]))
    ensures loop == LoopNone && q.manual == [] && q.auto != [] && q.index + 1 >= |q.auto| ==>
      r == (q.(index := |q.auto|), Nothing)
  {
    if loop == LoopOne then (q, Restart)
    else if q.manual != [] then (q.(manual := q.manual[1..]), PlayRef(q.manual[0]))
    else if q.auto == [] then (q, Nothing)
    else
      var i := q.index + 1;
      if i >= |q.auto| then
        if loop == LoopAll then (q.(index := 0), PlayRef(q.auto[0]))
        else (q.(index := |q.auto|), Nothing)
      else (q.(index := i), PlayRef(q.auto[i]))
  }

  /** `playPrev`. After the first three seconds the track restarts; otherwise the index
      steps back, wrapping to the last track under `all`, and otherwise stopping at 0
      without playing. The manual queue plays no part. */
  function PrevStep(q: Queues, loop: LoopMode, pastThreeSeconds: bool): (r: (Queues, Play))
    requires QueueIndexOk(q)
    ensures QueueIndexOk(r.0) && r.0.auto == q.auto && r.0.original == q.original && r.0.manual == q.manual
    ensures r.1.PlayRef? ==> 0 <= r.0.index < |q.auto| && r.1.ref == q.auto[r.0.index]
    ensures q.auto == [] ==> r == (q, Nothing)
    ensures q.auto != [] && pastThreeSeconds ==> r == (q, Restart)
    ensures q.auto != [] && !pastThreeSeconds && q.index > 0 ==>
      r == (q.(index := q.index - 1), PlayRef(q.auto[q.index - 1]))
    ensures q.auto != [] && !pastThreeSeconds && q.index <= 0 && loop == LoopAll ==>
      r == (q.(index := |q.auto| - 1), PlayRef(q.auto[|q.auto| - 1]))
    ensures q.auto != [] && !pastThreeSeconds && q.index <= 0 && loop != LoopAll ==> r == (q.(index := 0), Nothing)
  {
    if q.auto == [] then (q, Nothing)
    else if pastThreeSeconds then (q, Restart)
    else
      var i := q.index - 1;
      if i < 0 then
        if loop == LoopAll then (q.(index := |q.auto| - 1), PlayRef(q.auto[|q.auto| - 1]))
        else (q.(index := 0), Nothing)
      else (q.(index := i), PlayRef(q.auto[i]))
  }

  /** Next then previous comes back to the track that was playing. */
  lemma NextThenPrev(q: Queues, loop: LoopMode)
    requires QueueIndexOk(q) && q.manual == [] && loop != LoopOne
    requires 0 <= q.index < |q.auto| - 1
    ensures PrevStep(NextStep(q, loop).0, loop, false) == (q, PlayRef(q.auto[q.index]))
  {
  }

  /** `n` steps of `playNext`. */
  function NextSteps(q: Queues, loop: LoopMode, n: nat): (r: Queues)
    requires QueueIndexOk(q)
    decreases n
    ensures QueueIndexOk(r)
  {
    if n == 0 then q else NextSteps(NextStep(q, loop).0, loop, n - 1)
  }

  /** Under `all` the automatic queue is a cycle: after `k` steps the position has moved
      on by `k` modulo the queue length, so after as many steps as there are tracks the
      same track plays again. */
  lemma {:induction false} LoopAllCycles(q: Queues, k: nat)
    requires QueueIndexOk(q) && q.manual == [] && 0 <= q.index < |q.auto|
    ensures NextSteps(q, LoopAll, k).index == (q.index + k) % |q.auto|
    ensures NextSteps(q, LoopAll, k).auto == q.auto && NextSteps(q, LoopAll, k).manual == []
    decreases k
  {
    if k > 0 {
      var q' := NextStep(q, LoopAll).0;
      LoopAllCycles(q', k - 1);
      if q.index + 1 == |q.auto| {
        ModShift(k - 1, |q.auto|);
      }
    }
  }

  lemma ModShift(k: nat, n: nat)
    requires n > 0
    ensures (n + k) % n == k % n
  {
    ModUnique(n + k, n, k / n + 1, k % n);
  }

  /** Euclidean division has one quotient and one remainder. */
  lemma ModUnique(a: int, n: int, q: int, r: int)
    requires n > 0 && 0 <= r < n && a == n * q + r
    ensures a % n == r && a / n == q
  {
    var q', r' := a / n, a % n;
    assert a == n * q' + r';
    if q' > q {
      MulAtLeast(n, q' - q);
      Distribute(n, q', q);
    } else if q' < q {
      MulAtLeast(n, q - q');
      Distribute(n, q, q');
    }
  }

  lemma Distribute(n: int, x: int, y: int)
    ensures n * x - n * y == n * (x - y)
  {
  }

  lemma {:induction false} MulAtLeast(n: nat, d: nat)
    requires d >= 1
    ensures n * d >= n
  {
    if d > 1 {
      MulAtLeast(n, d - 1);
      assert n * d == n * (d - 1) + n;
    }
  }

  /** Without looping, once playback has run off the end of the automatic queue further
      steps change nothing and play nothing. */
  lemma RunOffIsFinal(q: Queues)
    requires QueueIndexOk(q) && q.manual == [] && q.auto != [] && q.index == |q.auto|
    ensures NextStep(q, LoopNone) == (q, Nothing)
    ensures PrevStep(q, LoopNone, false) == (q.(index := |q.auto| - 1), PlayRef(q.auto[|q.auto| - 1]))
  {
  }

  /** What the shuffle produces from a queue and the position of the current track: the
      current track first, then the other tracks in some order. */
  ghost predicate IsReshuffle(before: seq<TrackRef>, i: nat, after: seq<TrackRef>)
    requires i < |before|
  {
    |after| == |before| && after[0] == before[i] && multiset(after[1..]) == multiset(RemoveAt(before, i))
  }

  /** A shuffled queue holds the same tracks as before, each as often. */
  lemma ReshuffleIsPermutation(before: seq<TrackRef>, i: nat, after: seq<TrackRef>)
    requires i < |before| && IsReshuffle(before, i, after)
    ensures multiset(after) == multiset(before)
  {
    assert after == [after[0]] + after[1..];
  }

  // ---------------------------------------------------------------------------
  // Views

  datatype Views = Views(view: ViewName, args: ViewArgs, history: seq<(ViewName, ViewArgs)>)

  /** A playlist view whose playlist no longer exists: rendering it goes back. */
  predicate IsMissingPlaylist(v: Views, playlists: seq<Playlist>) {
    v.view == PlaylistView && !(v.args.Idx? && v.args.idx < |playlists|)
  }

  /** `navigate`: remember the current view, then switch. */
  function PushView(v: Views, view: ViewName, args: ViewArgs): Views {
    Views(view, args, v.history + [(v.view, v.args)])
  }

  /** `goBack`: return to the last remembered view; nothing when there is none. */
  function PopView(v: Views): Views {
    if v.history == [] then v
    else
      var last := v.history[|v.history| - 1];
      Views(last.0, last.1, v.history[..|v.history| - 1])
  }

  /** Where rendering comes to rest: a missing playlist sends the view back, and again
      while the view it returns to is a missing playlist too. */
  function Settle(v: Views, playlists: seq<Playlist>): (r: Views)
    ensures !IsMissingPlaylist(r, playlists) || r.history == []
    ensures |r.history| <= |v.history| && r.history == v.history[..|r.history|]
    decreases |v.history|
  {
    if IsMissingPlaylist(v, playlists) && v.history != [] then Settle(PopView(v), playlists) else v
  }

  /** Going back after navigating restores the view, its arguments and the history;
      navigating to a playlist that does not exist leaves everything where it was. */
  lemma NavigateThenGoBack(v: Views, view: ViewName, args: ViewArgs, playlists: seq<Playlist>)
    requires !IsMissingPlaylist(v, playlists)
    ensures var pushed := PushView(v, view, args);
      !IsMissingPlaylist(pushed, playlists) ==> Settle(PopView(Settle(pushed, playlists)), playlists) == v
    ensures IsMissingPlaylist(PushView(v, view, args), playlists) ==> Settle(PushView(v, view, args), playlists) == v
  {
    assert (v.history + [(v.view, v.args)])[..|v.history|] == v.history;
  }

  // ---------------------------------------------------------------------------
  // The art panel

  const ThumbWidth: nat := 80
  const MaxArtWidth: nat := 1200

  /** What `updateArt` leaves in the panel's logs when the wanted cover's key goes from
      `before` to `after`: nothing changes for the same key, a new cover asks for its
      images, and no cover empties the panel. */
  predicate ArtLogsAfter(before: Option<string>, after: Option<string>, panelSize: nat,
                         requested0: seq<ArtRequest>, shown0: seq<ArtRequest>,
                         requested: seq<ArtRequest>, shown: seq<ArtRequest>)
  {
    if after == before then requested == requested0 && shown == shown0
    else if after.None? then requested == requested0 && shown == []
    else requested == requested0 + ArtRequests(after.value, panelSize) && shown == shown0
  }

  /** The images one change of cover asks for: an 80-pixel thumbnail, and the panel's
      size capped at 1200 when that exceeds 80. */
  function ArtRequests(key: string, panelSize: nat): (r: seq<ArtRequest>)
    ensures |r| >= 1 && r[0] == ArtRequest(key, ThumbWidth)
    ensures |r| == 2 <==> panelSize > ThumbWidth
    ensures forall q | q in r :: q.key == key && ThumbWidth <= q.width <= MaxArtWidth
  {
    var size := if panelSize < MaxArtWidth then panelSize else MaxArtWidth;
    [ArtRequest(key, ThumbWidth)] + if size > ThumbWidth then [ArtRequest(key, size)] else []
  }

  /** The server serves every image the panel asks for at exactly the width asked. */
  lemma ArtRequestsServedAsAsked(key: string, panelSize: nat)
    ensures forall q | q in ArtRequests(key, panelSize) :: CoverWidth(Some(NatToString(q.width))) == q.width
  {
    forall q | q in ArtRequests(key, panelSize) ensures CoverWidth(Some(NatToString(q.width))) == q.width {
      CoverWidthOfRequest(q.width);
    }
  }

  function CoverKey(c: Option<CoverRef>): Option<string> {
    if c.Some? then Some(AlbumKey(c.value.ai, c.value.ali)) else None
  }

  /** The cover a view puts in the panel: an artist's first album when it has a cover,
      an album when it has one, and nothing for every other view. */
  function ViewCover(library: seq<ClientArtist>, view: ViewName, args: ViewArgs): (c: Option<CoverRef>)
    ensures c.Some? ==> IsAlbum(library, c.value) && library[c.value.ai].albums[c.value.ali].hasCover
  {
    if view == ArtistView && args.Idx? && args.idx < |library|
       && |library[args.idx].albums| > 0 && library[args.idx].albums[0].hasCover
    then Some(CoverRef(args.idx, 0))
    else if view == AlbumView && args.AlbumAt? && IsAlbum(library, CoverRef(args.ai, args.ali))
            && library[args.ai].albums[args.ali].hasCover
    then Some(CoverRef(args.ai, args.ali))
    else None
  }

  /** The views that render without failing: an artist or an album view names one that
      exists. */
  predicate ViewOk(library: seq<ClientArtist>, view: ViewName, args: ViewArgs) {
    && (view == ArtistView ==> args.Idx? && args.idx < |library|)
    && (view == AlbumView ==> args.AlbumAt? && IsAlbum(library, CoverRef(args.ai, args.ali)))
  }

  /** The current track followed by a rearrangement of the others is a reshuffle. */
  lemma CurrentThenRest(before: seq<TrackRef>, i: nat, rest: seq<TrackRef>)
    requires i < |before| && multiset(rest) == multiset(RemoveAt(before, i))
    ensures IsReshuffle(before, i, [before[i]] + rest)
    ensures multiset([before[i]] + rest) == multiset(before)
  {
    var after := [before[i]] + rest;
    assert after[1..] == rest;
    assert |rest| == |multiset(rest)| == |multiset(RemoveAt(before, i))| == |before| - 1;
    ReshuffleIsPermutation(before, i, after);
  }

  /** The loop of `reshuffleAutoQueue` that collects every track but the current one. */
  method AllBut(s: seq<TrackRef>, i: nat) returns (rest: seq<TrackRef>)
    requires i < |s|
    ensures rest == RemoveAt(s, i)
  {
    rest := [];
    var k := 0;
    while k < |s|
      invariant 0 <= k <= |s|
      invariant rest == if k <= i then s[..k] else s[..i] + s[i + 1..k]
    {
      if k < i {
        assert s[..k + 1] == s[..k] + [s[k]];
        rest := rest + [s[k]];
      } else if k > i {
        assert s[i + 1..k + 1] == s[i + 1..k] + [s[k]];
        rest := rest + [s[k]];
      }
      k := k + 1;
    }
  }

  /** The new order of `reshuffleAutoQueue`: the current track, then every other track
      of the queue in shuffled order. */
  method CurrentFirstShuffled(queue: seq<TrackRef>, i: nat) returns (r: seq<TrackRef>)
    requires i < |queue|
    ensures IsReshuffle(queue, i, r) && multiset(r) == multiset(queue)
  {
    var rest := AllBut(queue, i);
    rest := Shuffled(rest);
    r := [queue[i]] + rest;
    CurrentThenRest(queue, i, rest);
  }

  /** A rearranged queue refers to the same tracks. */
  lemma RefsOfPermutation(library: seq<ClientArtist>, a: seq<TrackRef>, b: seq<TrackRef>)
    requires multiset(a) == multiset(b) && forall r | r in b :: IsTrack(library, r)
    ensures forall r | r in a :: IsTrack(library, r)
  {
    forall r | r in a ensures IsTrack(library, r) {
      assert r in multiset(b);
    }
  }

  /** The entries the playlist view lists: those that still name a track of the library,
      in playlist order. */
  function ValidRefs(library: seq<ClientArtist>, s: seq<TrackRef>): (r: seq<TrackRef>)
    ensures |r| <= |s|
  {
    if s == [] then []
    else (if IsTrack(library, s[0]) then [s[0]] else []) + ValidRefs(library, s[1..])
  }

  /** The listed entries are exactly the playlist's references to tracks. */
  lemma {:induction false} ValidRefsMembers(library: seq<ClientArtist>, s: seq<TrackRef>)
    ensures forall x :: x in ValidRefs(library, s) <==> x in s && IsTrack(library, x)
  {
    if s != [] {
      ValidRefsMembers(library, s[1..]);
      assert forall x :: x in s <==> x == s[0] || x in s[1..];
    }
  }

  /** A playlist whose entries all name tracks is listed whole. */
  lemma {:induction false} ValidRefsOfValid(library: seq<ClientArtist>, s: seq<TrackRef>)
    requires forall x | x in s :: IsTrack(library, x)
    ensures ValidRefs(library, s) == s
  {
    if s != [] {
      assert s[0] in s;
      ValidRefsOfValid(library, s[1..]);
      assert [s[0]] + s[1..] == s;
    }
  }

  /** The references the album view queues: every track of the album, in order. */
  function AlbumRefs(library: seq<ClientArtist>, ai: nat, ali: nat): (r: seq<TrackRef>)
    requires IsAlbum(library, CoverRef(ai, ali))
    ensures |r| == |library[ai].albums[ali].tracks|
    ensures forall t | 0 <= t < |r| :: r[t] == TrackRef(ai, ali, t)
    ensures forall x | x in r :: IsTrack(library, x)
  {
    seq(|library[ai].albums[ali].tracks|, t requires 0 <= t < |library[ai].albums[ali].tracks| => TrackRef(ai, ali, t))
  }

  // ---------------------------------------------------------------------------
  // `findIdx` and `shuffleArray`

  /** `findIdx`: the first position of the track in `arr`, or 0 when it is absent. */
  method FindIdx(arr: seq<TrackRef>, ai: nat, ali: nat, ti: nat) returns (i: nat)
    ensures TrackRef(ai, ali, ti) in arr ==> i < |arr| && arr[i] == TrackRef(ai, ali, ti)
    ensures TrackRef(ai, ali, ti) in arr ==> forall j | 0 <= j < i :: arr[j] != TrackRef(ai, ali, ti)
    ensures TrackRef(ai, ali, ti) !in arr ==> i == 0
    ensures TrackRef(ai, ali, ti) in arr ==> i == FirstIndex(arr, TrackRef(ai, ali, ti))
  {
    i := 0;
    while i < |arr|
      invariant 0 <= i <= |arr|
      invariant forall j | 0 <= j < i :: arr[j] != TrackRef(ai, ali, ti)
    {
      if arr[i].artistIdx == ai && arr[i].albumIdx == ali && arr[i].trackIdx == ti {
        return i;
      }
      i := i + 1;
    }
    return 0;
  }

  /** `shuffleArray`: Fisher-Yates from the back. `Math.random` is not modelled: each
      swap partner is any position up to the current one. */
  method ShuffleArray(a: array<TrackRef>)
    modifies a
    ensures multiset(a[..]) == multiset(old(a[..]))
  {
    var i := a.Length - 1;
    while i > 0
      invariant -1 <= i < a.Length
      invariant multiset(a[..]) == multiset(old(a[..]))
    {
      var j :| 0 <= j <= i;
      a[i], a[j] := a[j], a[i];
      i := i - 1;
    }
  }

  /** Shuffles a list by way of an array, as the engine shuffles its arrays. */
  method Shuffled(s: seq<TrackRef>) returns (r: seq<TrackRef>)
    ensures multiset(r) == multiset(s) && |r| == |s|
  {
    var a := new TrackRef[|s|](k requires 0 <= k < |s| => s[k]);
    assert a[..] == s;
    ShuffleArray(a);
    r := a[..];
    assert |r| == |multiset(r)| == |multiset(s)| == |s|;
  }

  // ---------------------------------------------------------------------------
  // The engine's invariant, on the values of its variables

  predicate AllTracks(library: seq<ClientArtist>, s: seq<TrackRef>) {
    forall r | r in s :: IsTrack(library, r)
  }

  predicate PlayingOk(library: seq<ClientArtist>, current: Option<TrackRef>) {
    current.Some? ==> IsTrack(library, current.value)
  }

  /** The automatic queue is always a rearrangement of the saved original order, and is
      that order itself while shuffle is off. */
  predicate OrderOk(auto: seq<TrackRef>, index: int, original: seq<TrackRef>, shuffleOn: bool) {
    && IndexOk(auto, index)
    && multiset(auto) == multiset(original)
    && (!shuffleOn ==> auto == original)
  }

  /** The current view and every view to go back to render, and the view's cover is an
      album of the library. */
  predicate ViewsOk(library: seq<ClientArtist>, view: ViewName, args: ViewArgs, history: seq<(ViewName, ViewArgs)>,
                    cover: Option<CoverRef>) {
    && ViewOk(library, view, args)
    && (forall h | h in history :: ViewOk(library, h.0, h.1))
    && (cover.Some? ==> IsAlbum(library, cover.value))
  }

  /** The cover the panel is to show: the view's, or else the playing track's album when
      it has a cover. */
  function WantedCover(library: seq<ClientArtist>, cover: Option<CoverRef>, current: Option<TrackRef>): Option<CoverRef>
    requires PlayingOk(library, current)
  {
    if cover.Some? then cover
    else if current.Some? then
      var t := current.value;
      if library[t.artistIdx].albums[t.albumIdx].hasCover then Some(CoverRef(t.artistIdx, t.albumIdx)) else None
    else None
  }

  /** The panel's key is the key of the cover it is to show. */
  predicate ArtCurrent(library: seq<ClientArtist>, cover: Option<CoverRef>, current: Option<TrackRef>,
                       key: Option<string>) {
    PlayingOk(library, current) && key == CoverKey(WantedCover(library, cover, current))
  }

  // ---------------------------------------------------------------------------
  // The engine

  class Player {
    var library: seq<ClientArtist>
    var currentTrack: Option<TrackRef>
    var autoQueue: seq<TrackRef>
    var autoQueueIndex: int
    var originalAutoQueue: seq<TrackRef>
    var manualQueue: seq<TrackRef>
    var loopMode: LoopMode
    var shuffleOn: bool
    var contextCover: Option<CoverRef>
    var autoQueueLabel: string
    var currentView: ViewName
    var viewArgs: ViewArgs
    var viewHistory: seq<(ViewName, ViewArgs)>
    var favArtists: seq<nat>
    var favAlbums: seq<string>
    var playlists: seq<Playlist>
    /** The art panel: the key of the cover it shows, the size it is laid out at, the
        images it asked for and the images it faded in, in order. */
    var currentCoverKey: Option<string>
    var artPanelSize: nat
    var requestedArt: seq<ArtRequest>
    var shownArt: seq<ArtRequest>

    function Queue(): Queues
      reads this`autoQueue, this`autoQueueIndex, this`originalAutoQueue, this`manualQueue
    {
      Queues(autoQueue, autoQueueIndex, originalAutoQueue, manualQueue)
    }

    function ViewState(): Views
      reads this`currentView, this`viewArgs, this`viewHistory
    {
      Views(currentView, viewArgs, viewHistory)
    }

    /** The queues and the playing track name tracks of the library, and the automatic
        queue keeps its order invariant. */
    ghost predicate QueuesOk()
      reads this`library, this`autoQueue, this`autoQueueIndex, this`originalAutoQueue, this`manualQueue,
        this`shuffleOn, this`currentTrack
    {
      && AllTracks(library, autoQueue) && AllTracks(library, manualQueue) && PlayingOk(library, currentTrack)
      && OrderOk(autoQueue, autoQueueIndex, originalAutoQueue, shuffleOn)
    }

    /** The favourites hold no duplicates. Playlists are saved across rescans, so their
        references may name tracks the library no longer has. */
    ghost predicate SavedOk()
      reads this`favArtists, this`favAlbums
    {
      NoDuplicates(favArtists) && NoDuplicates(favAlbums)
    }

    /** Every view renders, and the view's cover is an album. */
    ghost predicate ViewsValid()
      reads this`library, this`currentView, this`viewArgs, this`viewHistory, this`contextCover
    {
      ViewsOk(library, currentView, viewArgs, viewHistory, contextCover)
    }

    /** Everything but the art panel. */
    ghost predicate Core()
      reads this`library, this`autoQueue, this`autoQueueIndex, this`originalAutoQueue, this`manualQueue,
        this`shuffleOn, this`currentTrack, this`playlists, this`currentView, this`viewArgs, this`viewHistory,
        this`contextCover, this`favArtists, this`favAlbums
    {
      QueuesOk() && SavedOk() && ViewsValid()
    }

    /** The invariant, and the panel shows the cover it is to show. */
    ghost predicate Valid()
      reads this`library, this`autoQueue, this`autoQueueIndex, this`originalAutoQueue, this`manualQueue,
        this`shuffleOn, this`currentTrack, this`playlists, this`currentView, this`viewArgs, this`viewHistory,
        this`contextCover, this`favArtists, this`favAlbums, this`currentCoverKey
    {
      Core() && ArtCurrent(library, contextCover, currentTrack, currentCoverKey)
    }

    constructor (library: seq<ClientArtist>, artPanelSize: nat, favArtists: seq<nat>, favAlbums: seq<string>,
                 playlists: seq<Playlist>)
      requires NoDuplicates(favArtists) && NoDuplicates(favAlbums)
      ensures Valid()
      ensures this.library == library && this.artPanelSize == artPanelSize
      ensures this.favArtists == favArtists && this.favAlbums == favAlbums && this.playlists == playlists
      ensures Queue() == Queues([], -1, [], []) && currentTrack.None? && loopMode == LoopNone && !shuffleOn
      ensures ViewState() == Views(LibraryView, NoArgs, []) && contextCover.None?
      ensures currentCoverKey.None? && requestedArt == [] && shownArt == []
    {
      this.library := library;
      currentTrack := None;
      autoQueue, autoQueueIndex, originalAutoQueue, manualQueue := [], -1, [], [];
      loopMode, shuffleOn := LoopNone, false;
      contextCover := None;
      autoQueueLabel := "";
      currentView, viewArgs, viewHistory := LibraryView, NoArgs, [];
      this.favArtists, this.favAlbums, this.playlists := favArtists, favAlbums, playlists;
      currentCoverKey := None;
      this.artPanelSize := artPanelSize;
      requestedArt, shownArt := [], [];
    }

    // -- The art panel --

    /** `updateArt`: when the wanted cover changed, record it and ask for its images;
        with no cover the panel is emptied. */
    method UpdateArt()
      requires Core()
      modifies this`currentCoverKey, this`requestedArt, this`shownArt
      ensures Valid()
      ensures ArtLogsAfter(old(currentCoverKey), currentCoverKey, artPanelSize, old(requestedArt), old(shownArt),
                           requestedArt, shownArt)
    {
      var key := CoverKey(WantedCover(library, contextCover, currentTrack));
      if key == currentCoverKey {
        return;
      }
      var requested, shown := requestedArt, shownArt;
      if key.None? {
        shown := [];
      } else {
        requested := requested + ArtRequests(key.value, artPanelSize);
      }
      currentCoverKey, requestedArt, shownArt := key, requested, shown;
    }

    /** An image finished loading: it is shown only if the panel still wants that cover,
        so a slow image of a cover the user has left never replaces the current one. */
    method ArtLoaded(image: ArtRequest)
      requires Valid() && image in requestedArt
      modifies this`shownArt
      ensures Valid()
      ensures shownArt == if currentCoverKey == Some(image.key) then old(shownArt) + [image] else old(shownArt)
    {
      if currentCoverKey == Some(image.key) {
        shownArt := shownArt + [image];
      }
    }

    // -- Favourites --

    /** `toggleFavArtist` */
    method ToggleFavArtist(ai: nat)
      requires Valid()
      modifies this`favArtists
      ensures Valid()
      ensures favArtists == Toggled(old(favArtists), ai)
      ensures ai in favArtists <==> ai !in old(favArtists)
    {
      var favs := favArtists;
      var i := FirstIndex(favs, ai);
      if i >= 0 {
        favs := RemoveAt(favs, i);
      } else {
        favs := favs + [ai];
      }
      ToggledFlips(favArtists, ai);
      favArtists := favs;
    }

    /** `toggleFavAlbum` */
    method ToggleFavAlbum(ai: nat, ali: nat)
      requires Valid()
      modifies this`favAlbums
      ensures Valid()
      ensures favAlbums == Toggled(old(favAlbums), AlbumKey(ai, ali))
      ensures AlbumKey(ai, ali) in favAlbums <==> AlbumKey(ai, ali) !in old(favAlbums)
    {
      var k := AlbumKey(ai, ali);
      var favs := favAlbums;
      var i := FirstIndex(favs, k);
      if i >= 0 {
        favs := RemoveAt(favs, i);
      } else {
        favs := favs + [k];
      }
      ToggledFlips(favAlbums, k);
      favAlbums := favs;
    }

    // -- Queues --

    /** `buildAutoQueue`: the list becomes the original order; with shuffle on the chosen
        track goes first and the others follow in shuffled order, and otherwise the list
        plays in order from the chosen track. */
    method BuildAutoQueue(tracks: seq<TrackRef>, startIdx: nat, queueLabel: string)
      requires Valid() && startIdx < |tracks| && forall r | r in tracks :: IsTrack(library, r)
      modifies this`autoQueue, this`autoQueueIndex, this`originalAutoQueue, this`autoQueueLabel
      ensures Valid()
      ensures originalAutoQueue == tracks && autoQueueLabel == queueLabel
      ensures shuffleOn ==> IsReshuffle(tracks, startIdx, autoQueue) && autoQueueIndex == 0
      ensures !shuffleOn ==> autoQueue == tracks && autoQueueIndex == startIdx
      ensures 0 <= autoQueueIndex < |autoQueue| && autoQueue[autoQueueIndex] == tracks[startIdx]
    {
      var queue, index;
      if shuffleOn {
        var rest := Shuffled(RemoveAt(tracks, startIdx));
        queue := [tracks[startIdx]] + rest;
        CurrentThenRest(tracks, startIdx, rest);
        index := 0;
      } else {
        queue, index := tracks, startIdx;
      }
      RefsOfPermutation(library, queue, tracks);
      originalAutoQueue, autoQueueLabel := tracks, queueLabel;
      autoQueue, autoQueueIndex := queue, index;
    }

    /** `reshuffleAutoQueue`, for a queue of at least two tracks and a position inside it:
        the current track goes first and the others follow in shuffled order. */
    method ReshuffleAutoQueue()
      requires Valid() && shuffleOn && |autoQueue| > 1 && 0 <= autoQueueIndex < |autoQueue|
      modifies this`autoQueue, this`autoQueueIndex
      ensures IsReshuffle(old(autoQueue), old(autoQueueIndex), autoQueue) && autoQueueIndex == 0
      ensures Valid()
    {
      var queue := CurrentFirstShuffled(autoQueue, autoQueueIndex);
      RefsOfPermutation(library, queue, autoQueue);
      autoQueue, autoQueueIndex := queue, 0;
    }

    /** `restoreAutoQueueOrder`: the original order comes back and the current track
        keeps its place in it. Once playback has run off the end, the position stays at
        the end. */
    method RestoreAutoQueueOrder()
      requires Valid()
      modifies this`autoQueue, this`autoQueueIndex
      ensures Valid() && autoQueue == originalAutoQueue
      ensures 0 <= old(autoQueueIndex) < |old(autoQueue)| ==>
        0 <= autoQueueIndex < |autoQueue| && autoQueue[autoQueueIndex] == old(autoQueue)[old(autoQueueIndex)]
      ensures 0 <= old(autoQueueIndex) < |old(autoQueue)| ==>
        autoQueueIndex == FirstIndex(originalAutoQueue, old(autoQueue)[old(autoQueueIndex)])
      ensures old(autoQueueIndex) == |old(autoQueue)| ==> autoQueueIndex == |autoQueue|
    {
      if |originalAutoQueue| == 0 {
        return;
      }
      var index: nat;
      if autoQueueIndex == |autoQueue| {
        index := |originalAutoQueue|;
      } else {
        var cur := autoQueue[autoQueueIndex];
        assert cur in multiset(originalAutoQueue);
        index := FindIdx(originalAutoQueue, cur.artistIdx, cur.albumIdx, cur.trackIdx);
      }
      RefsOfPermutation(library, originalAutoQueue, autoQueue);
      autoQueue, autoQueueIndex := originalAutoQueue, index;
    }

    /** The shuffle button. Turning shuffle on saves the order and shuffles, provided the
        queue has two tracks and the position is inside it; turning it off restores the
        order. (Restoring does not read the flag, so it is restored before the flag is
        cleared.) */
    method ToggleShuffle()
      requires Valid()
      modifies this`shuffleOn, this`autoQueue, this`autoQueueIndex, this`originalAutoQueue
      ensures Valid() && shuffleOn == !old(shuffleOn)
      ensures shuffleOn && |old(autoQueue)| > 1 && 0 <= old(autoQueueIndex) < |old(autoQueue)| ==>
        originalAutoQueue == old(autoQueue) && IsReshuffle(old(autoQueue), old(autoQueueIndex), autoQueue)
        && autoQueueIndex == 0
      ensures shuffleOn && !(|old(autoQueue)| > 1 && 0 <= old(autoQueueIndex) < |old(autoQueue)|) ==>
        Queue() == old(Queue())
      ensures !shuffleOn ==> autoQueue == old(originalAutoQueue) == originalAutoQueue
      ensures !shuffleOn && 0 <= old(autoQueueIndex) < |old(autoQueue)| ==>
        0 <= autoQueueIndex < |autoQueue| && autoQueue[autoQueueIndex] == old(autoQueue)[old(autoQueueIndex)]
        && autoQueueIndex == FirstIndex(originalAutoQueue, old(autoQueue)[old(autoQueueIndex)])
      ensures !shuffleOn && old(autoQueueIndex) == |old(autoQueue)| ==> autoQueueIndex == |autoQueue|
    {
      if !shuffleOn {
        shuffleOn := true;
        if |autoQueue| > 1 && 0 <= autoQueueIndex < |autoQueue| {
          originalAutoQueue := autoQueue;
          ReshuffleAutoQueue();
        }
      } else {
        RestoreAutoQueueOrder();
        shuffleOn := false;
      }
    }

    /** The loop button: none, then all, then one, then none again. */
    method CycleLoopMode()
      requires Valid()
      modifies this`loopMode
      ensures Valid()
      ensures loopMode == match old(loopMode) case LoopNone => LoopAll case LoopAll => LoopOne case LoopOne => LoopNone
    {
      if loopMode == LoopNone {
        loopMode := LoopAll;
      } else if loopMode == LoopAll {
        loopMode := LoopOne;
      } else {
        loopMode := LoopNone;
      }
    }

    /** "Add to Queue" */
    method AddToManualQueue(ref: TrackRef)
      requires Valid() && IsTrack(library, ref)
      modifies this`manualQueue
      ensures Valid() && manualQueue == old(manualQueue) + [ref]
    {
      manualQueue := manualQueue + [ref];
    }

    /** Removing an entry of the manual queue. */
    method RemoveFromManualQueue(i: nat)
      requires Valid()
      modifies this`manualQueue
      ensures Valid() && manualQueue == RemoveAt(old(manualQueue), i)
    {
      manualQueue := RemoveAt(manualQueue, i);
    }

    // -- Playback --

    /** `playTrack`, for the state it changes: the current track, then the art panel. */
    method PlayTrack(ref: TrackRef)
      requires Core() && IsTrack(library, ref)
      modifies this`currentTrack, this`currentCoverKey, this`requestedArt, this`shownArt
      ensures Valid() && currentTrack == Some(ref)
      ensures ArtLogsAfter(old(currentCoverKey), currentCoverKey, artPanelSize, old(requestedArt), old(shownArt),
                           requestedArt, shownArt)
    {
      currentTrack := Some(ref);
      UpdateArt();
    }

    /** Playing an entry of the manual queue takes it out of the queue. */
    method PlayFromManualQueue(i: nat)
      requires Valid() && i < |manualQueue|
      modifies this`manualQueue, this`currentTrack, this`currentCoverKey, this`requestedArt, this`shownArt
      ensures Valid()
      ensures manualQueue == RemoveAt(old(manualQueue), i) && currentTrack == Some(old(manualQueue)[i])
    {
      var ref := manualQueue[i];
      manualQueue := RemoveAt(manualQueue, i);
      PlayTrack(ref);
    }

    /** Playing an entry of the automatic queue moves the position there. */
    method PlayFromAutoQueue(i: nat)
      requires Valid() && i < |autoQueue|
      modifies this`autoQueueIndex, this`currentTrack, this`currentCoverKey, this`requestedArt, this`shownArt
      ensures Valid()
      ensures autoQueueIndex == i && currentTrack == Some(autoQueue[i])
    {
      autoQueueIndex := i;
      PlayTrack(autoQueue[i]);
    }

    /** A click on a track row of a listing queues the listed tracks, under the
        listing's label, starting from the clicked one. */
    method QueueFromList(tracks: seq<TrackRef>, ref: TrackRef, queueLabel: string)
      requires Valid() && ref in tracks && forall r | r in tracks :: IsTrack(library, r)
      modifies this`autoQueue, this`autoQueueIndex, this`originalAutoQueue, this`autoQueueLabel
      ensures Valid()
      ensures originalAutoQueue == tracks && autoQueueLabel == queueLabel
      ensures 0 <= autoQueueIndex < |autoQueue| && autoQueue[autoQueueIndex] == ref
      ensures !shuffleOn ==> autoQueue == tracks && autoQueueIndex == FirstIndex(tracks, ref)
      ensures shuffleOn ==> IsReshuffle(tracks, FirstIndex(tracks, ref), autoQueue) && autoQueueIndex == 0
    {
      assert ref == TrackRef(ref.artistIdx, ref.albumIdx, ref.trackIdx);
      var i := FindIdx(tracks, ref.artistIdx, ref.albumIdx, ref.trackIdx);
      BuildAutoQueue(tracks, i, queueLabel);
    }

    /** A track row of the album view: the album's tracks become the queue and the
        clicked track plays. */
    method PlayAlbumRow(ai: nat, ali: nat, ti: nat)
      requires Valid() && IsTrack(library, TrackRef(ai, ali, ti))
      modifies this`autoQueue, this`autoQueueIndex, this`originalAutoQueue, this`autoQueueLabel,
        this`currentTrack, this`currentCoverKey, this`requestedArt, this`shownArt
      ensures Valid()
      ensures originalAutoQueue == AlbumRefs(library, ai, ali) && autoQueueLabel == library[ai].albums[ali].name
      ensures 0 <= autoQueueIndex < |autoQueue| && autoQueue[autoQueueIndex] == TrackRef(ai, ali, ti)
      ensures currentTrack == Some(TrackRef(ai, ali, ti))
      ensures !shuffleOn ==> autoQueue == originalAutoQueue && autoQueueIndex == ti
      ensures shuffleOn ==> autoQueueIndex == 0
    {
      var tracks := AlbumRefs(library, ai, ali);
      assert tracks[ti] == TrackRef(ai, ali, ti);
      assert tracks[FirstIndex(tracks, TrackRef(ai, ali, ti))] == TrackRef(ai, ali, FirstIndex(tracks, TrackRef(ai, ali, ti)));
      QueueFromList(tracks, TrackRef(ai, ali, ti), library[ai].albums[ali].name);
      PlayTrack(TrackRef(ai, ali, ti));
    }

    /** A track row of the playlist view: the entries the view lists become the queue
        and the clicked track plays. An entry that no longer names a track is listed
        nowhere, so it is not queued either. */
    method PlayPlaylistRow(p: nat, ref: TrackRef)
      requires Valid() && p < |playlists| && ref in playlists[p].tracks && IsTrack(library, ref)
      modifies this`autoQueue, this`autoQueueIndex, this`originalAutoQueue, this`autoQueueLabel,
        this`currentTrack, this`currentCoverKey, this`requestedArt, this`shownArt
      ensures Valid()
      ensures originalAutoQueue == ValidRefs(old(library), old(playlists[p].tracks)) && autoQueueLabel == old(playlists[p].name)
      ensures 0 <= autoQueueIndex < |autoQueue| && autoQueue[autoQueueIndex] == ref && currentTrack == Some(ref)
      ensures !shuffleOn ==> autoQueue == originalAutoQueue && autoQueueIndex == FirstIndex(originalAutoQueue, ref)
      ensures shuffleOn ==> autoQueueIndex == 0
    {
      var tracks := ValidRefs(library, playlists[p].tracks);
      assert ref in tracks && AllTracks(library, tracks) by {
        ValidRefsMembers(library, playlists[p].tracks);
      }
      QueueFromList(tracks, ref, playlists[p].name);
      PlayTrack(ref);
    }

    /** `playNext` */
    method PlayNext()
      requires Valid()
      modifies this`autoQueueIndex, this`manualQueue, this`currentTrack, this`currentCoverKey, this`requestedArt,
        this`shownArt
      ensures Valid()
      ensures Queue() == NextStep(old(Queue()), loopMode).0
      ensures var p := NextStep(old(Queue()), loopMode).1;
        currentTrack == if p.PlayRef? then Some(p.ref) else old(currentTrack)
    {
      var next := AdvanceQueues();
      if next.Some? {
        PlayTrack(next.value);
      }
    }

    /** The queue half of `playNext`: move the queues on and name the track to play. */
    method AdvanceQueues() returns (next: Option<TrackRef>)
      requires Valid()
      modifies this`autoQueueIndex, this`manualQueue
      ensures Valid()
      ensures Queue() == NextStep(old(Queue()), loopMode).0
      ensures var p := NextStep(old(Queue()), loopMode).1;
        next == if p.PlayRef? then Some(p.ref) else None
      ensures next.Some? ==> IsTrack(library, next.value)
    {
      // Under `one` the audio element rewinds and plays on; nothing here changes.
      next := None;
      if loopMode != LoopOne {
        if |manualQueue| > 0 {
          next := Some(manualQueue[0]);
          manualQueue := manualQueue[1..];
        } else if |autoQueue| > 0 {
          var index := autoQueueIndex + 1;
          if index >= |autoQueue| {
            index := if loopMode == LoopAll then 0 else |autoQueue|;
          }
          autoQueueIndex := index;
          if index < |autoQueue| {
            next := Some(autoQueue[index]);
          }
        }
      }
    }

    /** `playPrev`; whether the audio is past its first three seconds is an input. */
    method PlayPrev(pastThreeSeconds: bool)
      requires Valid()
      modifies this`autoQueueIndex, this`currentTrack, this`currentCoverKey, this`requestedArt, this`shownArt
      ensures Valid()
      ensures Queue() == PrevStep(old(Queue()), loopMode, pastThreeSeconds).0
      ensures var p := PrevStep(old(Queue()), loopMode, pastThreeSeconds).1;
        currentTrack == if p.PlayRef? then Some(p.ref) else old(currentTrack)
    {
      // Past the first three seconds the audio element rewinds; nothing here changes.
      var prev: Option<TrackRef> := None;
      if |autoQueue| > 0 && !pastThreeSeconds {
        var index := autoQueueIndex - 1;
        if index < 0 {
          index := if loopMode == LoopAll then |autoQueue| - 1 else 0;
          prev := if loopMode == LoopAll then Some(autoQueue[index]) else None;
        } else {
          prev := Some(autoQueue[index]);
        }
        autoQueueIndex := index;
      }
      if prev.Some? {
        PlayTrack(prev.value);
      }
    }

    // -- Views --

    /** `renderView`, for the state it changes: the view's cover, a missing playlist's
        return to the previous view, and the art panel. */
    method RenderView()
      requires Core()
      modifies this`contextCover, this`currentView, this`viewArgs, this`viewHistory, this`currentCoverKey,
        this`requestedArt, this`shownArt
      ensures Valid()
      ensures ViewState() == Settle(old(ViewState()), playlists)
      ensures contextCover == ViewCover(library, currentView, viewArgs)
      ensures currentCoverKey == old(currentCoverKey) ==> requestedArt == old(requestedArt) && shownArt == old(shownArt)
      decreases |viewHistory|, 1
    {
      var cover: Option<CoverRef> := None;
      if currentView == ArtistView {
        var artist := library[viewArgs.idx];
        if |artist.albums| > 0 && artist.albums[0].hasCover {
          cover := Some(CoverRef(viewArgs.idx, 0));
        }
      } else if currentView == AlbumView {
        if library[viewArgs.ai].albums[viewArgs.ali].hasCover {
          cover := Some(CoverRef(viewArgs.ai, viewArgs.ali));
        }
      }
      assert cover == ViewCover(library, currentView, viewArgs);
      ghost var v := ViewState();
      contextCover := cover;
      if IsMissingPlaylist(ViewState(), playlists) && |viewHistory| > 0 {
        assert Settle(v, playlists) == Settle(PopView(v), playlists);
        // The panel is brought up to date by the rendering `goBack` starts, so the
        // `updateArt` that follows it finds nothing to change.
        GoBack();
        assert ViewState() == Settle(PopView(v), playlists);
      } else {
        assert Settle(v, playlists) == v;
        UpdateArt();
        assert ViewState() == v && contextCover == cover;
      }
    }

    /** `goBack` */
    method GoBack()
      requires Core()
      requires ArtCurrent(library, contextCover, currentTrack, currentCoverKey) || viewHistory != []
      modifies this`contextCover, this`currentView, this`viewArgs, this`viewHistory, this`currentCoverKey,
        this`requestedArt, this`shownArt
      ensures Valid()
      ensures old(viewHistory) == [] ==> ViewState() == old(ViewState()) && contextCover == old(contextCover)
      ensures old(viewHistory) != [] ==>
        ViewState() == Settle(PopView(old(ViewState())), playlists) && contextCover == ViewCover(library, currentView, viewArgs)
      ensures currentCoverKey == old(currentCoverKey) ==> requestedArt == old(requestedArt) && shownArt == old(shownArt)
      decreases |viewHistory|, 0
    {
      if |viewHistory| == 0 {
        return;
      }
      StepBack();
      RenderView();
    }

    /** The history half of `goBack`: the last remembered view becomes the current one. */
    method StepBack()
      requires Core() && viewHistory != []
      modifies this`currentView, this`viewArgs, this`viewHistory
      ensures Core() && ViewState() == PopView(old(ViewState()))
    {
      var prev := viewHistory[|viewHistory| - 1];
      assert prev in viewHistory;
      viewHistory := viewHistory[..|viewHistory| - 1];
      currentView, viewArgs := prev.0, prev.1;
    }

    /** `navigate` */
    method Navigate(view: ViewName, args: ViewArgs)
      requires Valid() && ViewOk(library, view, args)
      modifies this`contextCover, this`currentView, this`viewArgs, this`viewHistory, this`currentCoverKey,
        this`requestedArt, this`shownArt
      ensures Valid()
      ensures ViewState() == Settle(PushView(old(ViewState()), view, args), playlists)
      ensures contextCover == ViewCover(library, currentView, viewArgs)
    {
      viewHistory := viewHistory + [(currentView, viewArgs)];
      currentView, viewArgs := view, args;
      RenderView();
    }

    /** The queue button: back out of the queue view, or open it. */
    method ToggleQueueView()
      requires Valid()
      modifies this`contextCover, this`currentView, this`viewArgs, this`viewHistory, this`currentCoverKey,
        this`requestedArt, this`shownArt
      ensures Valid()
      ensures old(currentView) == QueueView && old(viewHistory) == [] ==> ViewState() == old(ViewState())
      ensures old(currentView) == QueueView && old(viewHistory) != [] ==>
        ViewState() == Settle(PopView(old(ViewState())), playlists)
      ensures old(currentView) != QueueView ==> ViewState() == PushView(old(ViewState()), QueueView, NoArgs)
    {
      if currentView == QueueView {
        GoBack();
      } else {
        Navigate(QueueView, NoArgs);
      }
    }

    // -- Playlists --

    /** A new, empty playlist from the name typed at the prompt (`None` when the prompt
        was cancelled); a name that is empty once trimmed creates nothing. */
    method CreatePlaylist(name: Option<string>)
      requires Valid()
      modifies this`playlists, this`contextCover, this`currentView, this`viewArgs, this`viewHistory,
        this`currentCoverKey, this`requestedArt, this`shownArt
      ensures Valid()
      ensures old(playlists) <= playlists
      ensures name.None? || Trim(name.value) == [] ==> playlists == old(playlists) && ViewState() == old(ViewState())
      ensures name.Some? && Trim(name.value) != [] ==>
        playlists == old(playlists) + [Playlist(Trim(name.value), [])] && ViewState() == Settle(old(ViewState()), playlists)
    {
      if name.Some? && name.value != "" && Trim(name.value) != "" {
        playlists := playlists + [Playlist(Trim(name.value), [])];
        RenderView();
      }
    }

    /** "+ New Playlist" in the add menu: a playlist holding the one track. */
    method CreatePlaylistWith(name: Option<string>, ref: TrackRef)
      requires Valid()
      modifies this`playlists
      ensures Valid()
      ensures playlists == if name.Some? && Trim(name.value) != [] then old(playlists) + [Playlist(Trim(name.value), [ref])]
                          else old(playlists)
    {
      if name.Some? && name.value != "" && Trim(name.value) != "" {
        playlists := playlists + [Playlist(Trim(name.value), [ref])];
      }
    }

    /** Adding a track to an existing playlist from the add menu. */
    method AddToPlaylist(p: nat, ref: TrackRef)
      requires Valid() && p < |playlists|
      modifies this`playlists
      ensures Valid()
      ensures |playlists| == |old(playlists)|
      ensures playlists[p] == old(playlists)[p].(tracks := old(playlists)[p].tracks + [ref])
      ensures forall q | 0 <= q < |playlists| && q != p :: playlists[q] == old(playlists)[q]
    {
      playlists := playlists[p := playlists[p].(tracks := playlists[p].tracks + [ref])];
    }

    /** Removing a track from the playlist on screen. */
    method RemoveFromPlaylist(p: nat, i: nat)
      requires Valid() && p < |playlists|
      modifies this`playlists, this`contextCover, this`currentView, this`viewArgs, this`viewHistory,
        this`currentCoverKey, this`requestedArt, this`shownArt
      ensures Valid()
      ensures |playlists| == |old(playlists)|
      ensures playlists[p] == old(playlists)[p].(tracks := RemoveAt(old(playlists)[p].tracks, i))
      ensures forall q | 0 <= q < |playlists| && q != p :: playlists[q] == old(playlists)[q]
      ensures ViewState() == Settle(old(ViewState()), playlists)
    {
      playlists := playlists[p := playlists[p].(tracks := RemoveAt(playlists[p].tracks, i))];
      RenderView();
    }

    /** Deleting a playlist, once the confirmation was accepted. */
    method DeletePlaylist(p: nat, confirmed: bool)
      requires Valid() && p < |playlists|
      modifies this`playlists, this`contextCover, this`currentView, this`viewArgs, this`viewHistory,
        this`currentCoverKey, this`requestedArt, this`shownArt
      ensures Valid()
      ensures !confirmed ==> playlists == old(playlists) && ViewState() == old(ViewState())
      ensures confirmed ==> playlists == RemoveAt(old(playlists), p) && ViewState() == Settle(old(ViewState()), playlists)
    {
      if confirmed {
        playlists := RemoveAt(playlists, p);
        RenderView();
      }
    }
  }
}
