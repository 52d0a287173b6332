/** The automatic queue's edge cases as the player's handlers are written, beside the
    corrected steps the rest of the model uses (`Playback.NextStep`,
    `Playback.Player.ToggleShuffle`, `Playback.Player.RestoreAutoQueueOrder`).

    Once playback has run off the end of the automatic queue without looping, the
    handlers as written leave the position at or past the end, and three of them read
    the queue there: the previous button, and the shuffle button both ways.

    A click on a playlist row queues every entry of the playlist, including those the
    view leaves out because they no longer name a track (`Playback.Player.PlayPlaylistRow`
    is the corrected click). */
module Findings {
  import opened Text
  import opened Scanner
  import opened Playback

  /** What a handler leaves behind: the new queues and what to play, or the queues as
      they stood when a missing entry was read and the handler threw. */
  datatype Outcome = Done(q: Queues, play: Play) | Threw(q: Queues)

  /** `playNext` as written: without looping, the position goes on growing past the
      end of the queue, one step per call. */
  function NextStepAsWritten(q: Queues, loop: LoopMode): (r: (Queues, Play))
    requires q.index >= -1
    ensures r.0.index >= -1 && r.0.auto == q.auto && r.0.original == q.original
    ensures r.1.PlayRef? && r.0.manual == q.manual ==> 0 <= r.0.index < |q.auto| && r.1.ref == q.auto[r.0.index]
    ensures loop == LoopNone && q.manual == [] && q.auto != [] ==> r.0.index == q.index + 1
  {
    if loop == LoopOne then (q, Restart)
    else if q.manual != [] then (q.(manual := q.manual[1..]), PlayRef(q.manual[0]))
    else if q.auto == [] then (q, Nothing)
    else
      var i := q.index + 1;
      if i >= |q.auto| then
        if loop == LoopAll then (q.(index := 0), PlayRef(q.auto[0]))
        else (q.(index := i), Nothing)
      else (q.(index := i), PlayRef(q.auto[i]))
  }

  /** `playPrev` as written: the position steps back and the queue is read there with
      no check against its length; a missing entry throws when its fields are read. */
  function PrevStepAsWritten(q: Queues, loop: LoopMode, pastThreeSeconds: bool): (r: Outcome)
    ensures r.Threw? <==> q.auto != [] && !pastThreeSeconds && q.index - 1 >= |q.auto|
    ensures r.Done? && r.play.PlayRef? ==> 0 <= r.q.index < |q.auto| && r.play.ref == q.auto[r.q.index]
  {
    if q.auto == [] then Done(q, Nothing)
    else if pastThreeSeconds then Done(q, Restart)
    else
      var i := q.index - 1;
      if i < 0 then
        if loop == LoopAll then Done(q.(index := |q.auto| - 1), PlayRef(q.auto[|q.auto| - 1]))
        else Done(q.(index := 0), Nothing)
      else if i < |q.auto| then Done(q.(index := i), PlayRef(q.auto[i]))
      else Threw(q.(index := i))
  }

  /** Two presses of next after the last track, then previous: as written the handler
      reads one past the end and throws; with the position held at the end, previous
      plays the last track again. */
  lemma PrevAfterRunOffAsWritten(t: TrackRef)
    ensures var q := Queues([t], 0, [t], []);
      var twice := NextStepAsWritten(NextStepAsWritten(q, LoopNone).0, LoopNone).0;
      twice.index == 2 && PrevStepAsWritten(twice, LoopNone, false) == Threw(q.(index := 1))
    ensures var q := Queues([t], 0, [t], []);
      var twice := NextStep(NextStep(q, LoopNone).0, LoopNone).0;
      twice.index == 1 && PrevStep(twice, LoopNone, false) == (q, PlayRef(t))
  {
  }

  /** Every further press of next past the end moves the position on, and previous
      then throws, however far past the end it has gone. */
  lemma {:induction false} RunOffAsWritten(q: Queues, n: nat)
    requires q.manual == [] && q.auto != [] && q.index >= |q.auto| - 1
    ensures NextStepsAsWritten(q, n).index == q.index + n
    ensures NextStepsAsWritten(q, n).auto == q.auto && NextStepsAsWritten(q, n).manual == []
    ensures n >= 2 ==> PrevStepAsWritten(NextStepsAsWritten(q, n), LoopNone, false).Threw?
    decreases n
  {
    if n > 0 {
      RunOffAsWritten(NextStepAsWritten(q, LoopNone).0, n - 1);
    }
  }

  /** `n` presses of next without looping, as written. */
  function NextStepsAsWritten(q: Queues, n: nat): (r: Queues)
    requires q.index >= -1
    ensures r.index >= -1 && r.auto == q.auto && r.original == q.original
    decreases n
  {
    if n == 0 then q else NextStepsAsWritten(NextStepAsWritten(q, LoopNone).0, n - 1)
  }

  /** A reshuffled queue: its head, which is `None` where the entry read was missing,
      and the shuffled rest. */
  datatype ShuffledQueue = ShuffledQueue(head: Option<TrackRef>, tail: seq<TrackRef>)

  /** The queue `reshuffleAutoQueue` builds when the shuffle button turns shuffle on, as
      written: the guard only asks for two tracks and a position that is not negative.
      `order` is the order the shuffle gave the other tracks. */
  function ShuffleOnAsWritten(auto: seq<TrackRef>, index: int, order: seq<TrackRef>): (r: Option<ShuffledQueue>)
    requires index >= 0 ==> multiset(order) == multiset(RemoveAt(auto, index))
    ensures r.Some? <==> |auto| > 1 && index >= 0
    ensures r.Some? ==> (r.value.head == None <==> index >= |auto|)
    ensures r.Some? && index < |auto| ==> r.value.head == Some(auto[index])
    ensures r.Some? ==>
      multiset(r.value.tail) == multiset(auto) - (if index < |auto| then multiset{auto[index]} else multiset{})
  {
    if |auto| > 1 && index >= 0 then
      var cur := if index < |auto| then Some(auto[index]) else None;
      Some(ShuffledQueue(cur, order))
    else None
  }

  /** After the last track has played out, turning shuffle on as written puts a
      missing entry at the head of the queue, with every real track shuffled after it;
      `renderQueue` then reads the missing head's fields and throws. */
  lemma ShuffleOnAfterRunOffAsWritten(auto: seq<TrackRef>, order: seq<TrackRef>)
    requires |auto| > 1 && multiset(order) == multiset(auto)
    ensures NextStep(Queues(auto, |auto| - 1, auto, []), LoopNone).0.index == |auto|
    ensures ShuffleOnAsWritten(auto, |auto|, order).Some?
    ensures var r := ShuffleOnAsWritten(auto, |auto|, order).value;
      r.head == None && multiset(r.tail) == multiset(auto) && |r.tail| == |auto|
  {
    var r := ShuffleOnAsWritten(auto, |auto|, order).value;
    assert |r.tail| == |multiset(r.tail)| == |multiset(auto)| == |auto|;
  }

  /** How `playTrack` ends: it records the track as current first, then reads the
      track's title from the library, which throws for a reference to no track. */
  datatype PlayOutcome = Playing(current: TrackRef) | ThrewPlaying(current: TrackRef)

  /** `playTrack` as written, up to `updateNowPlaying`. */
  function PlayTrackAsWritten(library: seq<ClientArtist>, ref: TrackRef): (r: PlayOutcome)
    ensures r.current == ref
    ensures r.Playing? <==> IsTrack(library, ref)
  {
    if ref.artistIdx < |library| && ref.albumIdx < |library[ref.artistIdx].albums|
       && ref.trackIdx < |library[ref.artistIdx].albums[ref.albumIdx].tracks|
    then Playing(ref)
    else ThrewPlaying(ref)
  }

  /** The queues a click on a playlist row leaves, as written with shuffle off: the
      playlist's every entry is queued, listed or not, and the position is the clicked
      entry's first place in it (or 0, as `findIdx` answers for a missing one). */
  function PlaylistRowAsWritten(tracks: seq<TrackRef>, ref: TrackRef, manual: seq<TrackRef>): (r: Queues)
    ensures r.auto == tracks && r.original == tracks && r.manual == manual
    ensures ref in tracks ==> 0 <= r.index < |tracks| && tracks[r.index] == ref
    ensures ref !in tracks ==> r.index == 0
  {
    var i := FirstIndex(tracks, ref);
    Queues(tracks, if i == -1 then 0 else i, tracks, manual)
  }

  /** A playlist holding a track and, after it, an entry whose track a rescan removed:
      clicking the track queues both, and when it ends, next plays the stale entry and
      throws in `playTrack`, with the stale reference left as the current track. Queuing
      only the listed entries, next finds the end of the queue instead. */
  lemma StalePlaylistEntryAsWritten(library: seq<ClientArtist>, v: TrackRef, s: TrackRef)
    requires IsTrack(library, v) && !IsTrack(library, s)
    ensures var q := PlaylistRowAsWritten([v, s], v, []);
      q == Queues([v, s], 0, [v, s], []) && NextStep(q, LoopNone) == (q.(index := 1), PlayRef(s))
      && PlayTrackAsWritten(library, s) == ThrewPlaying(s)
    ensures ValidRefs(library, [v, s]) == [v]
    ensures NextStep(Queues([v], 0, [v], []), LoopNone) == (Queues([v], 1, [v], []), Nothing)
  {
    assert v != s;
    assert [v, s][1..] == [s];
  }

  /** `restoreAutoQueueOrder` as written: the original order comes back first, then the
      track at the position is looked up in it; a missing entry throws with the order
      restored and the position unchanged. */
  function RestoreAsWritten(q: Queues): (r: Outcome)
    ensures r.Threw? <==> q.original != [] && !(0 <= q.index < |q.auto|)
    ensures r.Threw? ==> r.q == q.(auto := q.original)
    ensures r.Done? && q.original != [] ==> r.q.auto == q.original && 0 <= r.q.index < |q.original|
  {
    if q.original == [] then Done(q, Nothing)
    else if 0 <= q.index < |q.auto| then
      var i := FirstIndex(q.original, q.auto[q.index]);
      Done(q.(auto := q.original, index := if i == -1 then 0 else i), Nothing)
    else Threw(q.(auto := q.original))
  }

  /** After the last track has played out with shuffle on, turning shuffle off as
      written throws, so the queue is not drawn again; the corrected restore keeps the
      position at the end of the restored order. */
  lemma ShuffleOffAfterRunOffAsWritten(q: Queues)
    requires q.original != [] && q.index == |q.auto|
    ensures RestoreAsWritten(q) == Threw(q.(auto := q.original))
  {
  }
}
