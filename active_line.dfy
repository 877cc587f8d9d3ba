/**
 * The lyric line highlighted on the lyrics page: the first line that has
 * started at the current playback position and whose successor (if any)
 * has not. Positions and times are integer milliseconds.
 */
module ActiveLine {
  import opened Lrc

  /** The `findIndex` callback: line `i` has started and the next one has not. */
  predicate IsActive(lyrics: seq<LyricLine>, progress: int, i: int)
    requires 0 <= i < |lyrics|
  {
    lyrics[i].time <= progress && (i == |lyrics| - 1 || progress < lyrics[i + 1].time)
  }

  /** `findIndex` from position `from` on: the first active index, or -1. */
  function ActiveFrom(lyrics: seq<LyricLine>, progress: int, from: nat): (r: int)
    requires from <= |lyrics|
    ensures r == -1 || from <= r < |lyrics|
    ensures r != -1 ==> IsActive(lyrics, progress, r)
    ensures forall j :: from <= j < |lyrics| && (r == -1 || j < r) ==> !IsActive(lyrics, progress, j)
    decreases |lyrics| - from
  {
    if from == |lyrics| then -1
    else if IsActive(lyrics, progress, from) then from
    else ActiveFrom(lyrics, progress, from + 1)
  }

  /**
   * The highlighted line: -1 or an index in range that is active, with
   * no active line before it; -1 exactly when no line is active.
   */
  function ActiveIndex(lyrics: seq<LyricLine>, progress: int): (r: int)
    ensures -1 <= r < |lyrics|
    ensures r != -1 ==> IsActive(lyrics, progress, r)
    ensures forall j :: 0 <= j < |lyrics| && (r == -1 || j < r) ==> !IsActive(lyrics, progress, j)
  {
    ActiveFrom(lyrics, progress, 0)
  }

  /** On sorted lyrics, a line that has started is followed by an active line (possibly itself). */
  lemma {:induction false} ActiveAtOrAfter(lyrics: seq<LyricLine>, progress: int, k: nat)
    requires SortedByTime(lyrics)
    requires k < |lyrics| && lyrics[k].time <= progress
    ensures exists j :: k <= j < |lyrics| && IsActive(lyrics, progress, j)
    decreases |lyrics| - k
  {
    if !IsActive(lyrics, progress, k) {
      ActiveAtOrAfter(lyrics, progress, k + 1);
    }
  }

  /**
   * On sorted lyrics the highlighted line is the LAST one that has started:
   * every later line starts after `progress` (so a run of equal times
   * highlights its last line).
   */
  lemma LastStarted(lyrics: seq<LyricLine>, progress: int)
    requires SortedByTime(lyrics)
    ensures var r := ActiveIndex(lyrics, progress);
            (r != -1 ==> lyrics[r].time <= progress) &&
            forall j :: r < j < |lyrics| ==> progress < lyrics[j].time
  {
    var r := ActiveIndex(lyrics, progress);
    if r == -1 {
      if exists k :: 0 <= k < |lyrics| && lyrics[k].time <= progress {
        var k :| 0 <= k < |lyrics| && lyrics[k].time <= progress;
        ActiveAtOrAfter(lyrics, progress, k);
      }
    } else {
      forall j | r < j < |lyrics| ensures progress < lyrics[j].time {
        assert lyrics[r + 1].time <= lyrics[j].time;
      }
    }
  }

  /** On sorted lyrics nothing is highlighted exactly when there are no lines or the first has not started. */
  lemma NoneActive(lyrics: seq<LyricLine>, progress: int)
    requires SortedByTime(lyrics)
    ensures ActiveIndex(lyrics, progress) == -1 <==> |lyrics| == 0 || progress < lyrics[0].time
  {
    LastStarted(lyrics, progress);
  }

  /** On sorted lyrics the highlight never moves backwards as playback advances. */
  lemma Monotone(lyrics: seq<LyricLine>, p: int, q: int)
    requires SortedByTime(lyrics) && p <= q
    ensures ActiveIndex(lyrics, p) <= ActiveIndex(lyrics, q)
  {
    LastStarted(lyrics, p);
    LastStarted(lyrics, q);
  }

  /** Two lines at 0.2 s and 1.5 s: nothing before 0.2 s, the first from 0.2 s, the second from 1.5 s on. */
  lemma TwoLineExample(a: string, b: string)
    ensures var l := [LyricLine(200, a), LyricLine(1500, b)];
            ActiveIndex(l, 100) == -1 && ActiveIndex(l, 200) == 0 && ActiveIndex(l, 1499) == 0
            && ActiveIndex(l, 10000) == 1
  {
    var l := [LyricLine(200, a), LyricLine(1500, b)];
    assert !IsActive(l, 100, 0) && !IsActive(l, 100, 1);
    assert ActiveFrom(l, 100, 2) == -1;
    assert IsActive(l, 200, 0) && IsActive(l, 1499, 0);
    assert !IsActive(l, 10000, 0) && IsActive(l, 10000, 1);
  }

  /** Equal timestamps: the later line of the run is highlighted. */
  lemma EqualTimesExample(a: string, b: string)
    ensures ActiveIndex([LyricLine(100, a), LyricLine(100, b)], 100) == 1
  {
    var l := [LyricLine(100, a), LyricLine(100, b)];
    assert !IsActive(l, 100, 0) && IsActive(l, 100, 1);
  }
}
