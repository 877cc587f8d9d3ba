/**
 * The playback queue and repeat state machine of the player provider
 * (`playSong`, `togglePlay`, `toggleRepeat`, `nextSong`, `prevSong`),
 * as transitions on a snapshot of the playback state. Whether the media
 * element actually starts (`safePlay`) is the input `playOk`.
 */
module Queue {
  import opened Records

  datatype RepeatMode = Off | All | One

  /** `toggleRepeat`: off, then all, then one, then off again. */
  function NextRepeat(m: RepeatMode): (r: RepeatMode)
    ensures r != m
    ensures m == Off ==> r == All
    ensures m == All ==> r == One
    ensures m == One ==> r == Off
  {
    match m
    case Off => All
    case All => One
    case One => Off
  }

  /** Three toggles bring every mode back, and no fewer do. */
  lemma RepeatCycle(m: RepeatMode)
    ensures NextRepeat(NextRepeat(NextRepeat(m))) == m
    ensures NextRepeat(NextRepeat(m)) != m
  {
  }

  /** `queue.findIndex(s => s.id === id)`: the first position holding that id, or -1. */
  function FindIndex(queue: seq<Song>, id: SongId): (r: int)
    ensures -1 <= r < |queue|
    ensures r != -1 ==> queue[r].id == id
    ensures forall j :: 0 <= j < |queue| && (r == -1 || j < r) ==> queue[j].id != id
  {
    FirstIndex(queue, (s: Song) => s.id == id)
  }

  /** JavaScript's integer division for a positive divisor: the quotient is truncated toward zero. */
  function JsQuot(a: int, n: int): int
    requires n > 0
  {
    if a >= 0 then a / n else -((-a) / n)
  }

  /**
   * JavaScript's `%` for a positive divisor: what the truncated quotient
   * leaves, with the sign of the dividend (a `-0` result indexes like 0).
   */
  function JsRem(a: int, n: int): (r: int)
    requires n > 0
    ensures a >= 0 ==> 0 <= r < n
    ensures a < 0 ==> -n < r <= 0
    ensures a == n * JsQuot(a, n) + r
  {
    if a >= 0 then a % n else -((-a) % n)
  }

  /** `(currentIndex - 1 + queue.length) % queue.length`, always a valid position. */
  function PrevIndex(current: int, n: int): (r: int)
    requires n > 0 && -1 <= current < n
    ensures 0 <= r < n
  {
    JsRem(current - 1 + n, n)
  }

  /** Going back from the first track lands on the last; otherwise one step back. */
  lemma PrevIndexSteps(current: int, n: int)
    requires n > 0 && 0 <= current < n
    ensures PrevIndex(current, n) == if current == 0 then n - 1 else current - 1
  {
    var a := current - 1 + n;
    assert JsRem(a, n) == a % n;
    if current == 0 {
      ModOfSmall(n - 1, n);
    } else {
      ModOfShifted(current - 1, n);
    }
  }

  lemma ModOfSmall(b: int, n: int)
    requires 0 <= b < n
    ensures b % n == b
  {
  }

  lemma ModOfShifted(b: int, n: int)
    requires 0 <= b < n
    ensures (b + n) % n == b
  {
    var q := (b + n) / n;
    var r := (b + n) % n;
    assert b + n == n * q + r && 0 <= r < n;
  }

  /** From a track not in the queue, going back lands two before the end (the first, in a one-track queue). */
  lemma PrevIndexFromNowhere(n: int)
    requires n > 0
    ensures PrevIndex(-1, n) == if n == 1 then 0 else n - 2
  {
  }

  /** The playback part of the provider state; `position` is the elapsed time in milliseconds. */
  datatype Playback = Playback(
    current: Option<Song>,
    queue: seq<Song>,
    mode: RepeatMode,
    playing: bool,
    position: int)

  /** Whether `song` is the loaded track, compared by id as `playSong` does. */
  predicate IsCurrent(s: Playback, song: Song) {
    s.current.Some? && s.current.value.id == song.id
  }

  /**
   * `togglePlay`: a playing track pauses; a paused one plays exactly when
   * the media element starts. Nothing else changes.
   */
  function TogglePlaying(s: Playback, playOk: bool): (t: Playback)
    ensures t.current == s.current && t.queue == s.queue && t.mode == s.mode
    ensures t.position == s.position
    ensures t.playing <==> !s.playing && playOk
  {
    s.(playing := if s.playing then false else playOk)
  }

  /**
   * `playSong(song, newQueue)`: a given queue replaces the old one; the
   * loaded track toggles pause instead of reloading; any other track is
   * loaded from position 0 and plays exactly when the media element starts.
   */
  function PlayTrack(s: Playback, song: Song, newQueue: Option<seq<Song>>, playOk: bool): (t: Playback)
    ensures t.queue == (if newQueue.Some? then newQueue.value else s.queue)
    ensures t.mode == s.mode
    ensures IsCurrent(s, song) ==> t.current == s.current && t.position == s.position
                                   && (t.playing <==> !s.playing && playOk)
    ensures !IsCurrent(s, song) ==> t.current == Some(song) && t.position == 0 && t.playing == playOk
  {
    var queued := if newQueue.Some? then s.(queue := newQueue.value) else s;
    if IsCurrent(s, song) then TogglePlaying(queued, playOk)
    else queued.(current := Some(song), playing := playOk, position := 0)
  }

  /** What a skip decides: nothing, replay from 0, stop, or play the track at an index. */
  datatype Step = Ignore | Restart | Halt | Play(index: nat)

  /** The decision of `nextSong(isAuto)`. */
  function NextStep(s: Playback, isAuto: bool): (r: Step)
    ensures r.Play? ==> r.index < |s.queue|
  {
    if s.current.None? || |s.queue| == 0 then Ignore
    else if isAuto && s.mode == One then Restart
    else
      var next := FindIndex(s.queue, s.current.value.id) + 1;
      if next >= |s.queue| then
        if s.mode == Off && isAuto then Halt else Play(0)
      else Play(next)
  }

  /** The decision of `prevSong()`; the repeat mode plays no part. */
  function PrevStep(s: Playback): (r: Step)
    ensures r.Play? ==> r.index < |s.queue|
  {
    if s.current.None? || |s.queue| == 0 then Ignore
    else Play(PrevIndex(FindIndex(s.queue, s.current.value.id), |s.queue|))
  }

  /** Carrying out a decision; `playSong` sees the state before the skip, as its closure does. */
  function Apply(s: Playback, step: Step, playOk: bool): (t: Playback)
    requires step.Play? ==> step.index < |s.queue|
    ensures t.queue == s.queue && t.mode == s.mode
  {
    match step
    case Ignore => s
    case Restart => s.(position := 0, playing := playOk)
    case Halt => s.(playing := false)
    case Play(i) => PlayTrack(s, s.queue[i], None, playOk)
  }

  /** `nextSong(isAuto)`; the media element's `ended` event is `nextSong(true)`. */
  function Next(s: Playback, isAuto: bool, playOk: bool): (t: Playback)
    ensures t.queue == s.queue && t.mode == s.mode
  {
    Apply(s, NextStep(s, isAuto), playOk)
  }

  /** `prevSong()`. */
  function Prev(s: Playback, playOk: bool): (t: Playback)
    ensures t.queue == s.queue && t.mode == s.mode
  {
    Apply(s, PrevStep(s), playOk)
  }

  // ---------------------------------------------------------------------
  // Properties of skipping
  // ---------------------------------------------------------------------

  /** With no loaded track or an empty queue, skipping either way changes nothing. */
  lemma SkipWithoutTrackIsNoOp(s: Playback, isAuto: bool, playOk: bool)
    requires s.current.None? || |s.queue| == 0
    ensures Next(s, isAuto, playOk) == s && Prev(s, playOk) == s
  {
  }

  /** When a track ends under repeat-one, it is replayed from position 0. */
  lemma RepeatOneReplays(s: Playback, playOk: bool)
    requires s.current.Some? && |s.queue| > 0 && s.mode == One
    ensures Next(s, true, playOk) == s.(position := 0, playing := playOk)
  {
  }

  /** When the last track ends with repeat off, playback stops on that track. */
  lemma EndOfQueueStops(s: Playback, playOk: bool)
    requires s.current.Some? && |s.queue| > 0 && s.mode == Off
    requires FindIndex(s.queue, s.current.value.id) == |s.queue| - 1
    ensures Next(s, true, playOk) == s.(playing := false)
  {
  }

  /** Past the end (manual skip, or repeat-all), the queue wraps to its first track. */
  lemma EndOfQueueWraps(s: Playback, isAuto: bool, playOk: bool)
    requires s.current.Some? && |s.queue| > 0
    requires FindIndex(s.queue, s.current.value.id) == |s.queue| - 1
    requires !isAuto || s.mode == All
    ensures Next(s, isAuto, playOk) == PlayTrack(s, s.queue[0], None, playOk)
  {
  }

  /** Otherwise a skip plays the track after the current one. */
  lemma NextPlaysFollowing(s: Playback, isAuto: bool, playOk: bool)
    requires s.current.Some? && !(isAuto && s.mode == One)
    requires 0 <= FindIndex(s.queue, s.current.value.id) < |s.queue| - 1
    ensures var i := FindIndex(s.queue, s.current.value.id);
            Next(s, isAuto, playOk) == PlayTrack(s, s.queue[i + 1], None, playOk)
  {
  }

  /** A loaded track that is not in the queue skips to the queue's first track. */
  lemma UnqueuedSkipsToFirst(s: Playback, isAuto: bool, playOk: bool)
    requires s.current.Some? && |s.queue| > 0 && !(isAuto && s.mode == One)
    requires forall k :: 0 <= k < |s.queue| ==> s.queue[k].id != s.current.value.id
    ensures Next(s, isAuto, playOk) == PlayTrack(s, s.queue[0], None, playOk)
  {
    assert FindIndex(s.queue, s.current.value.id) == -1;
  }

  /**
   * In a one-track queue holding the loaded track, a manual skip (or an
   * automatic one under repeat-all) targets that same track and so only
   * toggles pause.
   */
  lemma SingleTrackSkipToggles(s: Playback, isAuto: bool, playOk: bool)
    requires |s.queue| == 1 && IsCurrent(s, s.queue[0])
    requires !isAuto || s.mode == All
    ensures Next(s, isAuto, playOk) == TogglePlaying(s, playOk)
  {
  }

  /** Going back: from the first track to the last, otherwise to the one before. */
  lemma PrevSteps(s: Playback, playOk: bool)
    requires s.current.Some? && 0 <= FindIndex(s.queue, s.current.value.id)
    ensures var i := FindIndex(s.queue, s.current.value.id);
            var j := if i == 0 then |s.queue| - 1 else i - 1;
            0 <= j < |s.queue| && Prev(s, playOk) == PlayTrack(s, s.queue[j], None, playOk)
  {
    PrevIndexSteps(FindIndex(s.queue, s.current.value.id), |s.queue|);
  }

  /** Going back from a track not in the queue lands two before the end (the only track, if one). */
  lemma UnqueuedPrev(s: Playback, playOk: bool)
    requires s.current.Some? && |s.queue| > 0
    requires forall k :: 0 <= k < |s.queue| ==> s.queue[k].id != s.current.value.id
    ensures var j := if |s.queue| == 1 then 0 else |s.queue| - 2;
            Prev(s, playOk) == PlayTrack(s, s.queue[j], None, playOk)
  {
    assert FindIndex(s.queue, s.current.value.id) == -1;
    PrevIndexFromNowhere(|s.queue|);
  }

  /** The repeat mode does not affect going back. */
  lemma PrevIgnoresMode(s: Playback, m: RepeatMode, playOk: bool)
    ensures Prev(s.(mode := m), playOk) == Prev(s, playOk).(mode := m)
  {
  }

  /** The loaded track is one of the queued tracks (compared by id). */
  predicate CursorQueued(s: Playback) {
    s.current.Some? ==> exists k :: 0 <= k < |s.queue| && s.queue[k].id == s.current.value.id
  }

  /** A skip that plays a track leaves a queued track loaded, whatever was loaded before. */
  lemma PlayLandsInQueue(s: Playback, i: nat, playOk: bool)
    requires i < |s.queue|
    ensures CursorQueued(Apply(s, Play(i), playOk))
  {
    var t := Apply(s, Play(i), playOk);
    assert t.queue[i].id == t.current.value.id;
  }

  /** Skipping forward or back keeps the loaded track among the queued ones. */
  lemma SkipsKeepCursorQueued(s: Playback, isAuto: bool, playOk: bool)
    requires CursorQueued(s)
    ensures CursorQueued(Next(s, isAuto, playOk))
    ensures CursorQueued(Prev(s, playOk))
  {
    var step := NextStep(s, isAuto);
    if step.Play? {
      PlayLandsInQueue(s, step.index, playOk);
    }
    var back := PrevStep(s);
    if back.Play? {
      PlayLandsInQueue(s, back.index, playOk);
    }
  }

  /** Playing a track picked from a list, with that list as the new queue, leaves a queued track loaded. */
  lemma PlayFromQueueKeepsCursorQueued(s: Playback, q: seq<Song>, i: nat, playOk: bool)
    requires i < |q|
    ensures CursorQueued(PlayTrack(s, q[i], Some(q), playOk))
  {
    var t := PlayTrack(s, q[i], Some(q), playOk);
    if !IsCurrent(s, q[i]) {
      assert t.queue[i].id == t.current.value.id;
    }
  }

  // ---------------------------------------------------------------------
  // A three-track queue
  // ---------------------------------------------------------------------

  /** Three distinct tracks with the last one loaded. */
  predicate AtThirdOfThree(s: Playback, a: Song, b: Song, c: Song) {
    a.id != b.id && a.id != c.id && b.id != c.id
    && s.queue == [a, b, c] && s.current == Some(c)
  }

  /** Repeat-all: when the third track ends, the first plays. */
  lemma ThreeTrackWrap(s: Playback, a: Song, b: Song, c: Song, playOk: bool)
    requires AtThirdOfThree(s, a, b, c) && s.mode == All
    ensures Next(s, true, playOk).current == Some(a)
  {
    assert FindIndex(s.queue, c.id) == 2;
  }

  /** Repeat off: when the third track ends, it stays loaded and playback stops. */
  lemma ThreeTrackStop(s: Playback, a: Song, b: Song, c: Song, playOk: bool)
    requires AtThirdOfThree(s, a, b, c) && s.mode == Off
    ensures Next(s, true, playOk).current == Some(c) && !Next(s, true, playOk).playing
  {
    assert FindIndex(s.queue, c.id) == 2;
  }

  /** Repeat-one: the third track stays loaded and restarts from 0. */
  lemma ThreeTrackRepeatOne(s: Playback, a: Song, b: Song, c: Song, playOk: bool)
    requires AtThirdOfThree(s, a, b, c) && s.mode == One
    ensures Next(s, true, playOk).current == Some(c) && Next(s, true, playOk).position == 0
  {
  }

  /** Going back from the third track plays the second. */
  lemma ThreeTrackBack(s: Playback, a: Song, b: Song, c: Song, playOk: bool)
    requires AtThirdOfThree(s, a, b, c)
    ensures Prev(s, playOk).current == Some(b) && Prev(s, playOk).position == 0
  {
    assert FindIndex(s.queue, c.id) == 2;
    PrevIndexSteps(2, 3);
  }
}
