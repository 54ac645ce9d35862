/** Cutting a long recording into overlapping windows. Every duration is a number of nanoseconds. */
module AudioWindows {
  import opened Wrappers

  const SECOND := 1_000_000_000
  const MINUTE := 60 * SECOND

  datatype Window = Window(start: int, end: int)

  function Min(a: int, b: int): int { if a <= b then a else b }

  // The defaults for a segment or an overlap that makes no sense.
  function SegmentOf(segment: int): int { if segment <= 0 then 9 * MINUTE else segment }

  function OverlapOf(segment: int, overlap: int): int {
    if overlap < 0 || overlap >= SegmentOf(segment) then SECOND else overlap
  }

  function StepOf(segment: int, overlap: int): int { SegmentOf(segment) - OverlapOf(segment, overlap) }

  // What a caller can check before the call.
  predicate Sensible(segment: int, overlap: int) {
    !(0 < segment <= SECOND && (overlap < 0 || overlap >= segment))
  }

  lemma Reaches(total: int, step: int, k: nat)
    requires 0 < step && total <= k
    ensures k * step >= total
  {
    MulMono(1, step, k);
  }

  lemma MulMono(a: int, b: int, k: nat)
    requires a <= b
    ensures k * a <= k * b
  {
  }

  /** The loop visits 0, step, 2 * step, ... while these lie below total. It ends exactly when there is nothing to cut
      or the step is positive, and the step is positive exactly for sensible arguments. */
  lemma LoopEnds(total: int, segment: int, overlap: int)
    ensures (exists k: nat :: k * StepOf(segment, overlap) >= total) <==> total <= 0 || Sensible(segment, overlap)
    ensures Sensible(segment, overlap) <==> 0 < StepOf(segment, overlap)
    ensures Sensible(segment, overlap) <==> 0 <= OverlapOf(segment, overlap) < SegmentOf(segment)
  {
    var step := StepOf(segment, overlap);
    if total <= 0 {
      assert 0 * step >= total;
    } else if 0 < step {
      Reaches(total, step, total);
    } else {
      forall k: nat ensures k * step < total {
        MulMono(step, 0, k);
      }
    }
  }

  // The windows in closed form.
  function Count(total: int, step: int): nat
    requires 0 < step
  {
    if total <= 0 then 0 else (total + step - 1) / step
  }

  function WindowAt(total: int, segment: int, step: int, k: nat): Window {
    Window(k * step, k * step + Min(segment, total - k * step))
  }

  function Windows(total: int, segment: int, step: int): seq<Window>
    requires 0 < step
  {
    seq(Count(total, step), k requires 0 <= k => WindowAt(total, segment, step, k))
  }

  lemma CountIs(total: int, step: int, n: nat)
    requires 0 < step && 0 < total && (n - 1) * step < total <= n * step
    ensures n == Count(total, step)
  {
    var q := Count(total, step);
    assert q * step <= total + step - 1 < q * step + step;
    if n < q {
      MulStep(n, q, step);
    } else if q < n {
      MulStep(q, n, step);
    }
  }

  // A bigger factor brings at least one more step.
  lemma MulStep(a: int, b: int, step: int)
    requires a < b && 0 < step
    ensures a * step + step <= b * step
  {
    MulMono(a + 1, b, step);
  }

  lemma CountBounds(total: int, step: int)
    requires 0 < step && 0 < total
    ensures 0 < Count(total, step) && (Count(total, step) - 1) * step < total <= Count(total, step) * step
  {
    var q := Count(total, step);
    assert q * step <= total + step - 1 < q * step + step;
  }

  /** Each window is a non-empty stretch of the recording no longer than a segment; the first begins at zero, the
      last ends at the end, and neighbours share exactly the overlap, or what is left of the recording if that is less. */
  lemma WindowShape(total: int, segment: int, overlap: int, k: nat)
    requires 0 <= overlap < segment && 0 < total && k < Count(total, segment - overlap)
    ensures var n := Count(total, segment - overlap); var w := WindowAt(total, segment, segment - overlap, k);
      && 0 <= w.start < w.end <= total && w.end - w.start <= segment
      && (k == 0 ==> w.start == 0) && (k == n - 1 ==> w.end == total)
      && (k < n - 1 ==>
            var next := WindowAt(total, segment, segment - overlap, k + 1).start;
            w.end - next == if total - next < overlap then total - next else overlap)
  {
    var step := segment - overlap;
    var n := Count(total, step);
    CountBounds(total, step);
    MulMono(k, n - 1, step);
    if k < n - 1 {
      MulMono(k + 1, n - 1, step);
    }
    assert (k + 1) * step == k * step + step;
  }

  /** A segment that makes no sense is nine minutes long, and an overlap that makes none is one second. */
  lemma DefaultsAre(segment: int, overlap: int)
    ensures SegmentOf(segment) == if segment > 0 then segment else 540_000_000_000
    ensures OverlapOf(segment, overlap) == if 0 <= overlap < SegmentOf(segment) then overlap else 1_000_000_000
  {
  }

  predicate Covers(ws: seq<Window>, x: int) { exists k :: 0 <= k < |ws| && ws[k].start <= x < ws[k].end }

  /** The windows together are exactly the recording: an instant lies in one of them if and only if it lies in
      [0, total). */
  lemma UnionIsTheRecording(total: int, segment: int, overlap: int, x: int)
    requires 0 <= overlap < segment
    ensures Covers(Windows(total, segment, segment - overlap), x) <==> 0 <= x < total
  {
    var ws := Windows(total, segment, segment - overlap);
    if k :| 0 <= k < |ws| && ws[k].start <= x < ws[k].end {
      WindowShape(total, segment, overlap, k);
    }
    if 0 <= x < total {
      var k := WindowOf(total, segment, overlap, x);
      WindowShape(total, segment, overlap, k);
      assert ws[k].start <= x < ws[k].end;
    }
  }

  lemma WindowOf(total: int, segment: int, overlap: int, x: int) returns (k: nat)
    requires 0 <= overlap < segment && 0 <= x < total
    ensures k < Count(total, segment - overlap)
    ensures var w := WindowAt(total, segment, segment - overlap, k); w.start <= x < w.end
  {
    var step := segment - overlap;
    k := DivFloor(x, step);
    CutBelow(total, step, k);
  }

  lemma DivFloor(x: nat, step: int) returns (k: nat)
    requires 0 < step
    ensures k * step <= x < k * step + step
  {
    k := x / step;
  }

  // The time sent to the provider in the first k windows.
  function Sent(total: int, segment: int, step: int, k: nat): int {
    if k == 0 then 0
    else var w := WindowAt(total, segment, step, k - 1); Sent(total, segment, step, k - 1) + w.end - w.start
  }

  /** The time sent, and so billed at most, is the recording plus one overlap for each seam. */
  lemma SentBound(total: int, segment: int, overlap: int)
    requires 0 <= overlap < segment && 0 < total
    ensures var n := Count(total, segment - overlap);
      total <= Sent(total, segment, segment - overlap, n) <= total + (n - 1) * overlap
  {
    var n := Count(total, segment - overlap);
    CountBounds(total, segment - overlap);
    WindowShape(total, segment, overlap, n - 1);
    SentSoFar(total, segment, overlap, n);
  }

  lemma SeamBound(total: int, segment: int, overlap: int, k: nat)
    requires 0 <= overlap < segment && 0 < total && k + 1 < Count(total, segment - overlap)
    ensures var step := segment - overlap;
      0 <= WindowAt(total, segment, step, k).end - WindowAt(total, segment, step, k + 1).start <= overlap
  {
    WindowShape(total, segment, overlap, k);
    WindowShape(total, segment, overlap, k + 1);
  }

  lemma {:induction false} SentSoFar(total: int, segment: int, overlap: int, k: nat)
    requires 0 <= overlap < segment && 0 < total && 0 < k <= Count(total, segment - overlap)
    ensures var end := WindowAt(total, segment, segment - overlap, k - 1).end;
      end <= Sent(total, segment, segment - overlap, k) <= end + (k - 1) * overlap
  {
    if 1 < k {
      SentSoFar(total, segment, overlap, k - 1);
      SeamBound(total, segment, overlap, k - 2);
      assert (k - 1) * overlap == (k - 2) * overlap + overlap;
    } else {
      assert Sent(total, segment, segment - overlap, 0) == 0;
    }
  }

  /** The cutting loop; cut is whether FFmpeg wrote the window of each index. It writes exactly the windows above, or
      stops with an error at the first failure. A step that is not positive would keep it from ending. */
  method SplitMp3(total: int, segment: int, overlap: int, cut: nat -> bool) returns (result: Option<seq<Window>>)
    requires total <= 0 || Sensible(segment, overlap)
    ensures total <= 0 ==> result == Some([])
    ensures 0 < total ==> var step := StepOf(segment, overlap);
      result == if forall k: nat :: k < Count(total, step) ==> cut(k)
                then Some(Windows(total, SegmentOf(segment), step)) else None
  {
    var seg := segment;
    if seg <= 0 {
      seg := 9 * MINUTE;
    }
    var over := overlap;
    if over < 0 || over >= seg {
      over := SECOND;
    }
    var step := seg - over;
    LoopEnds(total, segment, overlap);
    var ws: seq<Window> := [];
    var index: nat, start := 0, 0;
    while start < total
      invariant start == index * step && |ws| == index
      invariant if 0 < total then 0 < step && (index - 1) * step < total else index == 0
      invariant forall k :: 0 <= k < index ==> ws[k] == WindowAt(total, seg, step, k) && cut(k)
      decreases total - start
    {
      var length := Min(seg, total - start);
      if !cut(index) {
        CutBelow(total, step, index);
        return None;
      }
      ws := ws + [Window(start, start + length)];
      index, start := index + 1, start + step;
    }
    if 0 < total {
      CountIs(total, step, index);
      assert ws == Windows(total, seg, step);
    }
    result := Some(ws);
  }

  lemma CutBelow(total: int, step: int, index: nat)
    requires 0 < step && index * step < total
    ensures index < Count(total, step)
  {
    CountBounds(total, step);
    if Count(total, step) <= index {
      MulMono(Count(total, step), index, step);
    }
  }

  // What the transcriber sends: one window for a short recording, else windows of nine minutes overlapping by one
  // second.
  function Segments(duration: int): seq<Window> {
    if duration > 9 * MINUTE then Windows(duration, 9 * MINUTE, 9 * MINUTE - SECOND) else [Window(0, duration)]
  }

  /** Whatever its length, a recording is sent whole: in one window up to nine minutes, and beyond that in windows of at
      most nine minutes that begin every nine minutes less a second and share that second. */
  lemma SegmentsAreTheRecording(duration: int, x: int, k: nat)
    requires 0 < duration && k < |Segments(duration)|
    ensures Covers(Segments(duration), x) <==> 0 <= x < duration
    ensures 0 < Segments(duration)[k].end - Segments(duration)[k].start <= 540_000_000_000
    ensures Segments(duration)[k].start == k * 539_000_000_000
    ensures |Segments(duration)| == 1 <==> duration <= 540_000_000_000
    ensures k + 1 < |Segments(duration)| ==> var shared := Segments(duration)[k].end - Segments(duration)[k + 1].start;
      0 < shared <= 1_000_000_000 && (shared == 1_000_000_000 || Segments(duration)[k].end == duration)
  {
    if duration > 9 * MINUTE {
      UnionIsTheRecording(duration, 9 * MINUTE, SECOND, x);
      WindowShape(duration, 9 * MINUTE, SECOND, k);
    } else {
      assert Segments(duration)[0] == Window(0, duration);
    }
  }
}
