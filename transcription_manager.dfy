/**
 * The transcript merge of `TranscriptionManager._process_segments`: one pass
 * over the recognizer's time-stamped segments that folds a segment into the
 * open passage when it starts less than `min_duration` seconds after the
 * previous segment ended, and otherwise closes the passage.
 */
module TranscriptionManager {
  import opened Wrappers
  import opened Text

  /** A recognizer segment, and also a merged passage: times in seconds. */
  datatype Segment = Segment(start: real, end: real, text: string)

  // ---------------------------------------------------------------------------
  // The loop, step by step

  /** The loop state: the closed passages and the open one (`current`). */
  datatype Accumulator = Accumulator(processed: seq<Segment>, current: Option<Segment>)

  /** One iteration of the loop body. */
  function Step(acc: Accumulator, seg: Segment, minDuration: real): Accumulator {
    match acc.current
    case None => Accumulator(acc.processed, Some(seg))
    case Some(cur) =>
      if seg.start - cur.end < minDuration then
        Accumulator(acc.processed, Some(cur.(text := cur.text + " " + Strip(seg.text), end := seg.end)))
      else
        Accumulator(acc.processed + [cur], Some(seg))
  }

  /** The loop state after the first i iterations. */
  function Scan(segments: seq<Segment>, i: nat, minDuration: real): Accumulator
    requires i <= |segments|
  {
    if i == 0 then Accumulator([], None)
    else Step(Scan(segments, i - 1, minDuration), segments[i - 1], minDuration)
  }

  /** The final `if current: processed.append(current)`. */
  function Flush(acc: Accumulator): seq<Segment> {
    match acc.current
    case None => acc.processed
    case Some(cur) => acc.processed + [cur]
  }

  /** The passages `_process_segments` returns. */
  function Merged(segments: seq<Segment>, minDuration: real): seq<Segment> {
    Flush(Scan(segments, |segments|, minDuration))
  }

  /**
   * `_process_segments`. The open passage is a copy that the loop updates in
   * place; `segments` is a value and is left as it was.
   */
  method ProcessSegments(segments: seq<Segment>, minDuration: real) returns (processed: seq<Segment>)
    ensures processed == Merged(segments, minDuration)
  {
    processed := [];
    var current: Option<Segment> := None;
    for i := 0 to |segments|
      invariant Accumulator(processed, current) == Scan(segments, i, minDuration)
    {
      var seg := segments[i];
      if current.None? {
        current := Some(seg);
        continue;
      }
      var timeGap := seg.start - current.value.end;
      if timeGap < minDuration {
        current := Some(current.value.(text := current.value.text + " " + Strip(seg.text), end := seg.end));
      } else {
        processed := processed + [current.value];
        current := Some(seg);
      }
    }
    if current.Some? {
      processed := processed + [current.value];
    }
  }

  // ---------------------------------------------------------------------------
  // A reference description: passages are the runs between gaps

  /** Segment k starts at least `minDuration` after segment k - 1 ended. */
  predicate GapBefore(segments: seq<Segment>, k: int, minDuration: real) {
    0 < k < |segments| && segments[k].start - segments[k - 1].end >= minDuration
  }

  /** The indices below n of the segments that open a new passage after the first, ascending. */
  function Breaks(segments: seq<Segment>, n: nat, minDuration: real): (b: seq<nat>)
    requires n <= |segments|
    ensures forall j :: 0 <= j < |b| ==> 0 < b[j] < n
    ensures forall j :: 0 < j < |b| ==> b[j - 1] < b[j]
    ensures n > 0 ==> |b| < n
  {
    if n <= 1 then []
    else
      var b := Breaks(segments, n - 1, minDuration);
      b + (if GapBefore(segments, n - 1, minDuration) then [n - 1] else [])
  }

  /** The breaks are exactly the gaps. */
  lemma {:induction false} BreaksAreGaps(segments: seq<Segment>, n: nat, minDuration: real)
    requires n <= |segments|
    ensures forall j :: 0 <= j < |Breaks(segments, n, minDuration)| ==>
      GapBefore(segments, Breaks(segments, n, minDuration)[j], minDuration)
    ensures forall k :: 0 < k < n && GapBefore(segments, k, minDuration) ==> k in Breaks(segments, n, minDuration)
  {
    if n > 1 {
      BreaksAreGaps(segments, n - 1, minDuration);
    }
  }

  /** The text of segments lo .. hi - 1 merged into one passage. */
  function RunText(segments: seq<Segment>, lo: nat, hi: nat): string
    requires lo < hi <= |segments|
    decreases hi
  {
    if hi == lo + 1 then segments[lo].text
    else RunText(segments, lo, hi - 1) + " " + Strip(segments[hi - 1].text)
  }

  /** Segments lo .. hi - 1 as one passage: first start, last end, joined text. */
  function RunPassage(segments: seq<Segment>, lo: nat, hi: nat): Segment
    requires lo < hi <= |segments|
  {
    Segment(segments[lo].start, segments[hi - 1].end, RunText(segments, lo, hi))
  }

  /** The first segment index of passage j, given the breaks. */
  function PassageFirst(b: seq<nat>, j: nat): nat
    requires j <= |b|
  {
    if j == 0 then 0 else b[j - 1]
  }

  /** One past the last segment index of passage j, given the breaks. */
  function PassageLimit(b: seq<nat>, j: nat, n: nat): nat
    requires j <= |b|
  {
    if j < |b| then b[j] else n
  }

  /** The closed passages are the runs the breaks delimit. */
  predicate ClosedRuns(segments: seq<Segment>, b: seq<nat>, processed: seq<Segment>) {
    |processed| == |b|
    && forall j :: 0 <= j < |b| ==>
      PassageFirst(b, j) < b[j] <= |segments| && processed[j] == RunPassage(segments, PassageFirst(b, j), b[j])
  }

  /** The loop state after i > 0 iterations: the closed runs, then the open run. */
  predicate ShapeAt(segments: seq<Segment>, i: nat, minDuration: real)
    requires 0 < i <= |segments|
  {
    var b, acc := Breaks(segments, i, minDuration), Scan(segments, i, minDuration);
    && ClosedRuns(segments, b, acc.processed)
    && acc.current == Some(RunPassage(segments, PassageFirst(b, |b|), i))
  }

  /** Every prefix of the loop has the shape `ShapeAt` describes. */
  lemma {:induction false} ScanShape(segments: seq<Segment>, i: nat, minDuration: real)
    requires 0 < i <= |segments|
    ensures ShapeAt(segments, i, minDuration)
  {
    if i == 1 {
      assert Scan(segments, 1, minDuration) == Accumulator([], Some(segments[0]));
      assert RunPassage(segments, 0, 1) == segments[0];
    } else {
      ScanShape(segments, i - 1, minDuration);
      if GapBefore(segments, i - 1, minDuration) {
        ScanBreak(segments, i, minDuration);
      } else {
        ScanMerge(segments, i, minDuration);
      }
    }
  }

  /** A segment without a gap before it extends the open run. */
  lemma {:induction false} ScanMerge(segments: seq<Segment>, i: nat, minDuration: real)
    requires 1 < i <= |segments| && ShapeAt(segments, i - 1, minDuration)
    requires !GapBefore(segments, i - 1, minDuration)
    ensures ShapeAt(segments, i, minDuration)
  {
    var b, acc := Breaks(segments, i - 1, minDuration), Scan(segments, i - 1, minDuration);
    var first := PassageFirst(b, |b|);
    var s := segments[i - 1];
    assert Breaks(segments, i, minDuration) == b;
    assert RunText(segments, first, i) == RunText(segments, first, i - 1) + " " + Strip(s.text);
    assert Scan(segments, i, minDuration) == Accumulator(acc.processed, Some(RunPassage(segments, first, i)));
  }

  /** A segment after a gap closes the open run and opens its own. */
  lemma {:induction false} ScanBreak(segments: seq<Segment>, i: nat, minDuration: real)
    requires 1 < i <= |segments| && ShapeAt(segments, i - 1, minDuration)
    requires GapBefore(segments, i - 1, minDuration)
    ensures ShapeAt(segments, i, minDuration)
  {
    var b, acc := Breaks(segments, i - 1, minDuration), Scan(segments, i - 1, minDuration);
    var first := PassageFirst(b, |b|);
    var cur := RunPassage(segments, first, i - 1);
    assert ClosedRuns(segments, b, acc.processed) && acc.current == Some(cur);
    assert cur.end == segments[i - 2].end && first < i - 1;
    ScanCloses(segments, i, minDuration, cur);
    ClosedRunsClose(segments, b, acc.processed, cur, i - 1);
    ShapeAfterBreak(segments, i, minDuration, b, acc.processed + [cur]);
  }

  /** The loop body at a gap moves the open run to the closed ones and opens the new segment. */
  lemma ScanCloses(segments: seq<Segment>, i: nat, minDuration: real, cur: Segment)
    requires 1 < i <= |segments| && GapBefore(segments, i - 1, minDuration)
    requires Scan(segments, i - 1, minDuration).current == Some(cur) && cur.end == segments[i - 2].end
    ensures Scan(segments, i, minDuration) == Accumulator(Scan(segments, i - 1, minDuration).processed + [cur], Some(segments[i - 1]))
  {
  }

  /** After a gap the breaks gain its index, and the open run is the new segment alone. */
  lemma ShapeAfterBreak(segments: seq<Segment>, i: nat, minDuration: real, b: seq<nat>, processed: seq<Segment>)
    requires 1 < i <= |segments| && GapBefore(segments, i - 1, minDuration)
    requires b == Breaks(segments, i - 1, minDuration)
    requires Scan(segments, i, minDuration) == Accumulator(processed, Some(segments[i - 1]))
    requires ClosedRuns(segments, b + [i - 1], processed)
    ensures ShapeAt(segments, i, minDuration)
  {
    assert Breaks(segments, i, minDuration) == b + [i - 1];
    assert RunPassage(segments, i - 1, i) == segments[i - 1];
  }

  /** Appending a break keeps the first index of every earlier passage and of the open one. */
  lemma BreakAppended(b: seq<nat>, k: nat)
    ensures forall j :: 0 <= j <= |b| ==> PassageFirst(b + [k], j) == PassageFirst(b, j)
  {
    forall j | 0 < j <= |b|
      ensures PassageFirst(b + [k], j) == PassageFirst(b, j)
    {
      assert (b + [k])[j - 1] == b[j - 1];
    }
  }

  /** Closing the open run at a new break adds it as the last closed run. */
  lemma ClosedRunsClose(segments: seq<Segment>, b: seq<nat>, processed: seq<Segment>, cur: Segment, k: nat)
    requires k < |segments|
    requires ClosedRuns(segments, b, processed)
    requires PassageFirst(b, |b|) < k && cur == RunPassage(segments, PassageFirst(b, |b|), k)
    ensures ClosedRuns(segments, b + [k], processed + [cur])
  {
    var b', processed' := b + [k], processed + [cur];
    BreakAppended(b, k);
    forall j | 0 <= j < |b'|
      ensures PassageFirst(b', j) < b'[j] <= |segments| && processed'[j] == RunPassage(segments, PassageFirst(b', j), b'[j])
    {
      if j < |b| {
        assert processed[j] == RunPassage(segments, PassageFirst(b, j), b[j]);
        assert b'[j] == b[j] && processed'[j] == processed[j] && PassageFirst(b', j) == PassageFirst(b, j);
      } else {
        assert j == |b|;
        assert b'[j] == k && processed'[j] == cur && PassageFirst(b', j) == PassageFirst(b, j);
      }
    }
  }

  /** Passage j is run j: the whole output, described by the breaks. */
  lemma MergedShape(segments: seq<Segment>, minDuration: real)
    requires |segments| > 0
    ensures var b, m := Breaks(segments, |segments|, minDuration), Merged(segments, minDuration);
      && |m| == |b| + 1
      && forall j :: 0 <= j <= |b| ==>
        m[j] == RunPassage(segments, PassageFirst(b, j), PassageLimit(b, j, |segments|))
  {
    ScanShape(segments, |segments|, minDuration);
    var b, acc := Breaks(segments, |segments|, minDuration), Scan(segments, |segments|, minDuration);
    var last := RunPassage(segments, PassageFirst(b, |b|), |segments|);
    assert ClosedRuns(segments, b, acc.processed) && acc.current == Some(last);
    assert Merged(segments, minDuration) == acc.processed + [last];
    RunsFlush(segments, b, acc.processed, last, |segments|);
  }

  /** The closed runs followed by the open run through n are the runs up to n. */
  lemma RunsFlush(segments: seq<Segment>, b: seq<nat>, processed: seq<Segment>, last: Segment, n: nat)
    requires n <= |segments|
    requires forall j :: 0 <= j < |b| ==> 0 < b[j] < n
    requires forall j :: 0 < j < |b| ==> b[j - 1] < b[j]
    requires ClosedRuns(segments, b, processed)
    requires PassageFirst(b, |b|) < n && last == RunPassage(segments, PassageFirst(b, |b|), n)
    ensures |processed + [last]| == |b| + 1
    ensures forall j :: 0 <= j <= |b| ==>
      (processed + [last])[j] == RunPassage(segments, PassageFirst(b, j), PassageLimit(b, j, n))
  {
    var m := processed + [last];
    forall j | 0 <= j <= |b|
      ensures m[j] == RunPassage(segments, PassageFirst(b, j), PassageLimit(b, j, n))
    {
      if j < |b| {
        assert m[j] == processed[j];
      }
    }
  }

  // ---------------------------------------------------------------------------
  // What callers can rely on

  /**
   * No segments, no passages; otherwise one passage plus one per gap, so at
   * least one and at most one per segment.
   */
  lemma MergedCount(segments: seq<Segment>, minDuration: real)
    ensures segments == [] ==> Merged(segments, minDuration) == []
    ensures segments != [] ==>
      |Merged(segments, minDuration)| == 1 + |Breaks(segments, |segments|, minDuration)|
      && 1 <= |Merged(segments, minDuration)| <= |segments|
  {
    if segments != [] {
      MergedShape(segments, minDuration);
    }
  }

  /** The first passage starts with the first segment; the last ends with the last. */
  lemma MergedEndpoints(segments: seq<Segment>, minDuration: real)
    requires |segments| > 0
    ensures var m := Merged(segments, minDuration);
      |m| > 0 && m[0].start == segments[0].start && m[|m| - 1].end == segments[|segments| - 1].end
  {
    MergedShape(segments, minDuration);
    var b := Breaks(segments, |segments|, minDuration);
    var m := Merged(segments, minDuration);
    assert m[0] == RunPassage(segments, 0, PassageLimit(b, 0, |segments|));
    assert m[|b|] == RunPassage(segments, PassageFirst(b, |b|), |segments|);
  }

  /** Consecutive passages are separated by at least `minDuration`. */
  lemma MergedGaps(segments: seq<Segment>, minDuration: real)
    ensures var m := Merged(segments, minDuration);
      forall j :: 0 <= j < |m| - 1 ==> m[j + 1].start - m[j].end >= minDuration
  {
    if segments != [] {
      MergedShape(segments, minDuration);
      BreaksAreGaps(segments, |segments|, minDuration);
      var b := Breaks(segments, |segments|, minDuration);
      var m := Merged(segments, minDuration);
      forall j | 0 <= j < |m| - 1
        ensures m[j + 1].start - m[j].end >= minDuration
      {
        assert m[j] == RunPassage(segments, PassageFirst(b, j), b[j]);
        assert m[j + 1] == RunPassage(segments, b[j], PassageLimit(b, j + 1, |segments|));
        assert GapBefore(segments, b[j], minDuration);
      }
    }
  }

  /** Every segment runs forward in time, and each starts no earlier than the previous one ends. */
  predicate Chronological(segments: seq<Segment>) {
    && (forall k :: 0 <= k < |segments| ==> segments[k].start <= segments[k].end)
    && (forall k :: 0 < k < |segments| ==> FollowsOn(segments, k))
  }

  /** Segment k starts no earlier than segment k - 1 ends. */
  predicate FollowsOn(segments: seq<Segment>, k: int)
    requires 0 < k < |segments|
  {
    segments[k - 1].end <= segments[k].start
  }

  lemma {:induction false} ChronologicalSpan(segments: seq<Segment>, i: nat, k: nat)
    requires Chronological(segments) && i <= k < |segments|
    ensures segments[i].start <= segments[k].end
    decreases k - i
  {
    if i < k {
      ChronologicalSpan(segments, i + 1, k);
      assert FollowsOn(segments, i + 1);
    }
  }

  /** A passage of chronological segments ends no earlier than it starts. */
  lemma MergedForward(segments: seq<Segment>, minDuration: real)
    requires Chronological(segments)
    ensures var m := Merged(segments, minDuration);
      forall j :: 0 <= j < |m| ==> m[j].start <= m[j].end
  {
    if segments != [] {
      MergedShape(segments, minDuration);
      var b := Breaks(segments, |segments|, minDuration);
      var m := Merged(segments, minDuration);
      forall j | 0 <= j < |m|
        ensures m[j].start <= m[j].end
      {
        var lo, hi := PassageFirst(b, j), PassageLimit(b, j, |segments|);
        assert m[j] == RunPassage(segments, lo, hi);
        ChronologicalSpan(segments, lo, hi - 1);
      }
    }
  }

  /**
   * Chronological segments give passages that run forward in time and, for a
   * non-negative `minDuration`, do not overlap.
   */
  lemma MergedChronological(segments: seq<Segment>, minDuration: real)
    requires Chronological(segments) && minDuration >= 0.0
    ensures Chronological(Merged(segments, minDuration))
  {
    MergedGaps(segments, minDuration);
    MergedForward(segments, minDuration);
  }
}
