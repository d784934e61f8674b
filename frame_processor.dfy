/**
 * `FrameProcessor`: the frame loop of `process`, the record `_process_frame`
 * builds for one frame, and the truncation `_select_most_relevant_frames`
 * applies to the kept records. The video decoder, the image writer, the
 * captioning model and the embedding model are engines given as functions.
 */
module FrameProcessor {
  import opened Wrappers
  import opened Text
  import opened Paths

  type Embedding = seq<real>

  /** The dictionary `_process_frame` returns: path, index, caption, embedding. */
  datatype FrameRecord = FrameRecord(path: string, index: int, caption: string, embedding: Embedding)

  /**
   * The outside engines, one answer per frame index: whether seeking to the
   * index and reading succeeds, whether converting and saving the image
   * succeeds, the caption model's answer (None where it raises) and the
   * embedding model's answer for a text (None where it raises).
   */
  datatype Engines = Engines(
    readOk: int -> bool,
    saveOk: int -> bool,
    captioner: int -> Option<string>,
    embed: string -> Option<Embedding>)

  /** The screenshot's file name for a frame index. */
  function FrameFileName(idx: int): (name: string)
    ensures '/' !in name
  {
    var digits := IntToString(idx);
    assert forall k :: 0 <= k < |digits| ==> digits[k] == '-' || '0' <= digits[k] <= '9';
    "frame_" + digits + ".jpg"
  }

  /** Different frame indices get different file names. */
  lemma FrameFileNameInjective(i: int, j: int)
    requires FrameFileName(i) == FrameFileName(j)
    ensures i == j
  {
    var a, b := FrameFileName(i), FrameFileName(j);
    assert a[6..|a| - 4] == IntToString(i);
    assert b[6..|b| - 4] == IntToString(j);
    IntToStringInjective(i, j);
  }

  /** Python's `s[:n]`: a negative n counts from the end. */
  function Take<T>(s: seq<T>, n: int): (r: seq<T>)
    ensures |r| <= |s| && r == s[..|r|]
    ensures n >= 0 ==> |r| == if n <= |s| then n else |s|
    ensures n < 0 ==> |r| == if |s| + n >= 0 then |s| + n else 0
  {
    if n >= 0 then (if n <= |s| then s[..n] else s)
    else (if |s| + n >= 0 then s[..|s| + n] else [])
  }

  /** The values of the first n entries that are present, in order. */
  function Present<T>(xs: seq<Option<T>>, n: nat): seq<T>
    requires n <= |xs|
  {
    if n == 0 then []
    else Present(xs, n - 1) + (if xs[n - 1].Some? then [xs[n - 1].value] else [])
  }

  /** The positions below n of the present entries, ascending. */
  function PresentPositions<T>(xs: seq<Option<T>>, n: nat): (p: seq<nat>)
    requires n <= |xs|
    ensures forall j :: 0 <= j < |p| ==> p[j] < n && xs[p[j]].Some?
    ensures forall j, k :: 0 <= j < k < |p| ==> p[j] < p[k]
  {
    if n == 0 then []
    else PresentPositions(xs, n - 1) + (if xs[n - 1].Some? then [n - 1] else [])
  }

  /**
   * The present values are, in order, the values at exactly the positions
   * that hold one.
   */
  lemma {:induction false} PresentShape<T>(xs: seq<Option<T>>, n: nat)
    requires n <= |xs|
    ensures var v, p := Present(xs, n), PresentPositions(xs, n);
      && |v| == |p|
      && (forall j :: 0 <= j < |p| ==> xs[p[j]] == Some(v[j]))
      && (forall i :: 0 <= i < n && xs[i].Some? ==> i in p)
  {
    if n > 0 {
      PresentShape(xs, n - 1);
      var v, p := Present(xs, n - 1), PresentPositions(xs, n - 1);
      var v', p' := Present(xs, n), PresentPositions(xs, n);
      if xs[n - 1].Some? {
        assert v' == v + [xs[n - 1].value] && p' == p + [n - 1];
        forall j | 0 <= j < |p'|
          ensures xs[p'[j]] == Some(v'[j])
        {
          if j < |p| {
            assert p'[j] == p[j] && v'[j] == v[j];
          } else {
            assert j == |p| && p'[j] == n - 1 && v'[j] == xs[n - 1].value;
          }
        }
        forall i | 0 <= i < n && xs[i].Some?
          ensures i in p'
        {
          if i < n - 1 {
            assert i in p;
          } else {
            assert p'[|p|] == n - 1;
          }
        }
      } else {
        assert v' == v && p' == p;
      }
    }
  }

  class FrameProcessor {
    const outputDir: string
    const maxFrames: int
    const mode: string
    const blipEnabled: bool
    const maxCaptionLength: int
    const screenshotsDir: string

    /** `__init__`: the settings and the screenshots directory under the output directory. */
    constructor(outputDir: string, maxFrames: int, mode: string, blipEnabled: bool, maxCaptionLength: int)
      ensures this.outputDir == outputDir && this.maxFrames == maxFrames && this.mode == mode
      ensures this.blipEnabled == blipEnabled && this.maxCaptionLength == maxCaptionLength
      ensures screenshotsDir == Join(outputDir, "screenshots")
    {
      this.outputDir := outputDir;
      this.maxFrames := maxFrames;
      this.mode := mode;
      this.blipEnabled := blipEnabled;
      this.maxCaptionLength := maxCaptionLength;
      this.screenshotsDir := Join(outputDir, "screenshots");
    }

    /** Where the screenshot of a frame is saved: `frame_<idx>.jpg` in the screenshots directory. */
    function FramePath(idx: int): (p: string)
      ensures Basename(p) == FrameFileName(idx)
    {
      BasenameOfJoin(screenshotsDir, FrameFileName(idx));
      Join(screenshotsDir, FrameFileName(idx))
    }

    /** Distinct frame indices are saved to distinct paths. */
    lemma FramePathInjective(i: int, j: int)
      requires FramePath(i) == FramePath(j)
      ensures i == j
    {
      assert FrameFileName(i) == Basename(FramePath(i)) == Basename(FramePath(j)) == FrameFileName(j);
      FrameFileNameInjective(i, j);
    }

    /**
     * `_process_frame`: the record for a frame, or None where saving,
     * captioning or embedding raises. Without BLIP the caption is empty and
     * the caption model is not consulted; the embedding is the caption's.
     */
    function ProcessFrame(idx: int, saved: bool, captioned: Option<string>, embed: string -> Option<Embedding>): (r: Option<FrameRecord>)
      ensures r.Some? <==>
        saved && (blipEnabled ==> captioned.Some?) && embed(if blipEnabled then captioned.value else "").Some?
      ensures r.Some? ==>
        && r.value.index == idx
        && Basename(r.value.path) == FrameFileName(idx)
        && r.value.caption == (if blipEnabled then captioned.value else "")
        && embed(r.value.caption) == Some(r.value.embedding)
    {
      if !saved then None
      else
        var caption := if blipEnabled then captioned else Some("");
        if caption.None? then None
        else
          match embed(caption.value)
          case None => None
          case Some(embedding) => Some(FrameRecord(FramePath(idx), idx, caption.value, embedding))
    }

    /** One iteration of the frame loop: the record kept for an index, if any. */
    function Attempt(idx: int, e: Engines): Option<FrameRecord> {
      if !e.readOk(idx) then None
      else ProcessFrame(idx, e.saveOk(idx), e.captioner(idx), e.embed)
    }

    /** The outcome of the loop body for each index of the list. */
    function Attempts(indices: seq<int>, e: Engines): (xs: seq<Option<FrameRecord>>)
      ensures |xs| == |indices|
      ensures forall i :: 0 <= i < |indices| ==> xs[i] == Attempt(indices[i], e)
    {
      seq(|indices|, i requires 0 <= i < |indices| => Attempt(indices[i], e))
    }

    /** The records the loop has kept after its first n iterations. */
    function KeptUpTo(indices: seq<int>, n: nat, e: Engines): seq<FrameRecord>
      requires n <= |indices|
    {
      Present(Attempts(indices, e), n)
    }

    /** One more iteration keeps the record of the next index, if it has one. */
    lemma KeptStep(indices: seq<int>, i: nat, e: Engines)
      requires i < |indices|
      ensures KeptUpTo(indices, i + 1, e) ==
        KeptUpTo(indices, i, e) + (if Attempt(indices[i], e).Some? then [Attempt(indices[i], e).value] else [])
    {
      assert Attempts(indices, e)[i] == Attempt(indices[i], e);
    }

    /** Every kept record belongs to its own index and sits at the path of that index. */
    lemma KeptRecords(indices: seq<int>, e: Engines)
      ensures var kept := KeptUpTo(indices, |indices|, e);
        forall j :: 0 <= j < |kept| ==>
          && kept[j].index in indices
          && e.readOk(kept[j].index)
          && kept[j].path == FramePath(kept[j].index)
    {
      KeptFrames(indices, e);
      var kept, p := KeptUpTo(indices, |indices|, e), PresentPositions(Attempts(indices, e), |indices|);
      forall j | 0 <= j < |kept|
        ensures kept[j].index in indices && e.readOk(kept[j].index) && kept[j].path == FramePath(kept[j].index)
      {
        var i := p[j];
        assert Attempt(indices[i], e) == Some(kept[j]);
        AttemptKept(indices[i], e);
        assert indices[i] in indices;
      }
    }

    /** A record kept for an index belongs to that index, which was read, and sits at its path. */
    lemma AttemptKept(idx: int, e: Engines)
      requires Attempt(idx, e).Some?
      ensures e.readOk(idx)
      ensures Attempt(idx, e).value.index == idx
      ensures Attempt(idx, e).value.path == FramePath(idx)
    {
    }

    /**
     * The loop keeps, in the order of the index list, the records of exactly
     * the indices whose read and processing succeed; failures are skipped.
     */
    lemma KeptFrames(indices: seq<int>, e: Engines)
      ensures var kept, p := KeptUpTo(indices, |indices|, e), PresentPositions(Attempts(indices, e), |indices|);
        && |kept| == |p|
        && (forall j :: 0 <= j < |p| ==> Attempt(indices[p[j]], e) == Some(kept[j]))
        && (forall i :: 0 <= i < |indices| && Attempt(indices[i], e).Some? ==> i in p)
    {
      PresentShape(Attempts(indices, e), |indices|);
    }

    /** `_select_most_relevant_frames`: no text segments are ever set, so this is `frames[:max_frames]`. */
    function SelectMostRelevant(frames: seq<FrameRecord>): (r: seq<FrameRecord>)
      ensures |r| <= |frames| && r == frames[..|r|]
      ensures maxFrames >= 0 ==> |r| <= maxFrames
      ensures maxFrames >= 0 ==> |r| == if |frames| <= maxFrames then |frames| else maxFrames
      ensures maxFrames < 0 ==> |r| == if |frames| + maxFrames >= 0 then |frames| + maxFrames else 0
      ensures |frames| <= maxFrames ==> r == frames
    {
      Take(frames, maxFrames)
    }

    /**
     * `process`: an error when the video cannot be opened; otherwise the
     * records of the indices that read and process, in order, truncated.
     */
    method Process(isOpened: bool, indices: seq<int>, e: Engines) returns (r: Result<seq<FrameRecord>, string>)
      ensures r.Err? <==> !isOpened
      ensures r.Ok? ==> r.value == SelectMostRelevant(KeptUpTo(indices, |indices|, e))
    {
      if !isOpened {
        return Err("Error opening video file");
      }
      var frames: seq<FrameRecord> := [];
      for i := 0 to |indices|
        invariant frames == KeptUpTo(indices, i, e)
      {
        var frameIdx := indices[i];
        KeptStep(indices, i, e);
        if !e.readOk(frameIdx) {
          continue;
        }
        var processed := ProcessFrame(frameIdx, e.saveOk(frameIdx), e.captioner(frameIdx), e.embed);
        if processed.Some? {
          frames := frames + [processed.value];
        }
      }
      return Ok(SelectMostRelevant(frames));
    }
  }
}
