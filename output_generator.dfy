/**
 * `OutputGenerator`: aligning each transcript segment with its best-scoring
 * frame (`_prepare_content`) and writing the Markdown document
 * (`_generate_markdown`). The similarity scores are given as a matrix with a
 * row per segment and a column per frame; the `:.1f` rendering of a time is a
 * given function.
 */
module OutputGenerator {
  import opened Wrappers
  import opened Paths
  import opened FileStore
  import TranscriptionManager
  import FrameProcessor

  type Segment = TranscriptionManager.Segment
  type FrameRecord = FrameProcessor.FrameRecord

  /** One aligned section: the segment's text, its start time and its frame. */
  datatype Section = Section(text: string, time: real, frame: FrameRecord)

  /** What `_prepare_content` hands to the writer. */
  datatype Content = Content(title: string, sections: seq<Section>)

  // ---------------------------------------------------------------------------
  // Alignment

  /** `np.argmax` over the first n scores of a row. */
  function ArgmaxUpTo(row: seq<real>, n: nat): (k: nat)
    requires 0 < n <= |row|
    ensures k < n
    ensures forall j :: 0 <= j < n ==> row[j] <= row[k]
    ensures forall j :: 0 <= j < k ==> row[j] < row[k]
  {
    if n == 1 then 0
    else
      var k := ArgmaxUpTo(row, n - 1);
      if row[n - 1] > row[k] then n - 1 else k
  }

  /** `np.argmax(row)`: the first index of a largest score. */
  function Argmax(row: seq<real>): (k: nat)
    requires |row| > 0
    ensures k < |row|
    ensures forall j :: 0 <= j < |row| ==> row[j] <= row[k]
    ensures forall j :: 0 <= j < k ==> row[j] < row[k]
  {
    ArgmaxUpTo(row, |row|)
  }

  /** Any index that is a largest score and is preceded only by smaller ones is the one argmax picks. */
  lemma ArgmaxUnique(row: seq<real>, k: nat)
    requires k < |row|
    requires forall j :: 0 <= j < |row| ==> row[j] <= row[k]
    requires forall j :: 0 <= j < k ==> row[j] < row[k]
    ensures Argmax(row) == k
  {
    var a := Argmax(row);
    assert row[a] <= row[k] && row[k] <= row[a];
  }

  /** The shape of a similarity matrix: a row per segment, a score per frame. */
  predicate IsScoreMatrix(scores: seq<seq<real>>, segments: nat, frames: nat) {
    |scores| == segments && forall i :: 0 <= i < |scores| ==> |scores[i]| == frames
  }

  // ---------------------------------------------------------------------------
  // The document

  /** The title line and the blank line after it. */
  function Header(title: string): string {
    "# " + title + "\n\n"
  }

  /** The time header of a section. */
  function TimeLine(time: real, formatTime: real -> string): string {
    "## Время: " + formatTime(time) + " сек\n"
  }

  /** The image line, then the section's text and a blank line. */
  function ImageAndText(alt: string, section: Section): string {
    "![" + alt + "](" + section.frame.path + ")\n" + section.text + "\n\n"
  }

  /**
   * Subscripting a frame record by a key whose value is printed as text:
   * the text of `path` or `caption`, and None for every other key. Keys the
   * record lacks, such as `description`, are where Python raises KeyError;
   * `index` and `embedding` are present but are never printed here.
   */
  function TextField(frame: FrameRecord, key: string): (r: Option<string>)
    ensures r.Some? <==> key == "path" || key == "caption"
  {
    if key == "path" then Some(frame.path)
    else if key == "caption" then Some(frame.caption)
    else None
  }

  /**
   * What the writer has put in the file after the first n sections, when
   * the image line's alt text is the frame's `altKey` field, and whether
   * it got through them: it stops after the time header of the first
   * section whose frame lacks that field.
   */
  function RenderUpTo(sections: seq<Section>, n: nat, altKey: string, formatTime: real -> string): (string, bool)
    requires n <= |sections|
  {
    if n == 0 then ("", true)
    else
      var prev := RenderUpTo(sections, n - 1, altKey, formatTime);
      if !prev.1 then prev
      else
        var s := sections[n - 1];
        match TextField(s.frame, altKey)
        case None => (prev.0 + TimeLine(s.time, formatTime), false)
        case Some(alt) => (prev.0 + TimeLine(s.time, formatTime) + ImageAndText(alt, s), true)
  }

  /** One more section, as the writer appends it after what is already in the file. */
  lemma RenderStep(sections: seq<Section>, i: nat, altKey: string, formatTime: real -> string, header: string)
    requires i < |sections| && RenderUpTo(sections, i, altKey, formatTime).1
    ensures var done, s := RenderUpTo(sections, i, altKey, formatTime).0, sections[i];
      var next := RenderUpTo(sections, i + 1, altKey, formatTime);
      match TextField(s.frame, altKey)
      case None => !next.1 && header + next.0 == header + done + TimeLine(s.time, formatTime)
      case Some(alt) => next.1 && header + next.0 == header + done + TimeLine(s.time, formatTime) + ImageAndText(alt, s)
  {
    var done, s := RenderUpTo(sections, i, altKey, formatTime).0, sections[i];
    var tl := TimeLine(s.time, formatTime);
    assert header + (done + tl) == header + done + tl;
    match TextField(s.frame, altKey)
    case None =>
    case Some(alt) =>
      assert header + (done + tl + ImageAndText(alt, s)) == header + done + tl + ImageAndText(alt, s);
  }

  /** One section of the finished document. */
  function Block(s: Section, formatTime: real -> string): string {
    TimeLine(s.time, formatTime) + ImageAndText(s.frame.caption, s)
  }

  /** The sections of the finished document, one block after another. */
  function Blocks(sections: seq<Section>, formatTime: real -> string): string {
    if sections == [] then ""
    else Block(sections[0], formatTime) + Blocks(sections[1..], formatTime)
  }

  lemma {:induction false} BlocksAppend(a: seq<Section>, b: seq<Section>, formatTime: real -> string)
    ensures Blocks(a + b, formatTime) == Blocks(a, formatTime) + Blocks(b, formatTime)
    decreases |a|
  {
    if a == [] {
      assert a + b == b;
    } else {
      assert (a + b)[1..] == a[1..] + b;
      BlocksAppend(a[1..], b, formatTime);
    }
  }

  /** Once the writer has stopped, later sections add nothing. */
  lemma {:induction false} RenderStops(sections: seq<Section>, i: nat, n: nat, altKey: string, formatTime: real -> string)
    requires i <= n <= |sections|
    requires !RenderUpTo(sections, i, altKey, formatTime).1
    ensures RenderUpTo(sections, n, altKey, formatTime) == RenderUpTo(sections, i, altKey, formatTime)
    decreases n
  {
    if n > i {
      RenderStops(sections, i, n - 1, altKey, formatTime);
    }
  }

  /** With the `caption` field as alt text every section is written in full. */
  lemma {:induction false} CaptionRendering(sections: seq<Section>, n: nat, formatTime: real -> string)
    requires n <= |sections|
    ensures RenderUpTo(sections, n, "caption", formatTime) == (Blocks(sections[..n], formatTime), true)
  {
    if n > 0 {
      CaptionRendering(sections, n - 1, formatTime);
      assert sections[..n] == sections[..n - 1] + [sections[n - 1]];
      BlocksAppend(sections[..n - 1], [sections[n - 1]], formatTime);
      var s := sections[n - 1];
      assert Blocks([s], formatTime) == Block(s, formatTime) + Blocks([], formatTime);
      assert TextField(s.frame, "caption") == Some(s.frame.caption);
      var text := Blocks(sections[..n - 1], formatTime);
      assert RenderUpTo(sections, n, "caption", formatTime)
        == (text + TimeLine(s.time, formatTime) + ImageAndText(s.frame.caption, s), true);
      assert text + TimeLine(s.time, formatTime) + ImageAndText(s.frame.caption, s) == text + Block(s, formatTime);
      assert Blocks(sections[..n], formatTime) == text + (Block(s, formatTime) + "");
      assert Block(s, formatTime) + "" == Block(s, formatTime);
    }
  }

  /**
   * With the `description` key the writer stops at the first section: the
   * file holds the title and the first time header, and writing fails.
   */
  lemma DescriptionRendering(sections: seq<Section>, formatTime: real -> string)
    requires |sections| > 0
    ensures RenderUpTo(sections, |sections|, "description", formatTime) == (TimeLine(sections[0].time, formatTime), false)
  {
    assert RenderUpTo(sections, 1, "description", formatTime) == ("" + TimeLine(sections[0].time, formatTime), false);
    assert "" + TimeLine(sections[0].time, formatTime) == TimeLine(sections[0].time, formatTime);
    RenderStops(sections, 1, |sections|, "description", formatTime);
  }

  /** `os.path.join(output_dir, f"{title}.md")`. */
  function OutputPath(outputDir: string, title: string): (p: string)
    ensures '/' !in title ==> Basename(p) == title + ".md"
  {
    if '/' in title then Join(outputDir, title + ".md")
    else
      DocumentNameBasename(outputDir, title);
      Join(outputDir, title + ".md")
  }

  lemma DocumentNameBasename(outputDir: string, title: string)
    requires '/' !in title
    ensures '/' !in title + ".md"
    ensures Basename(Join(outputDir, title + ".md")) == title + ".md"
  {
    assert forall c :: c in title + ".md" ==> c in title || c in ".md";
    BasenameOfJoin(outputDir, title + ".md");
  }

  /** The document name gives the title back when the title is a plain, not all-dots file name. */
  lemma OutputPathTitle(outputDir: string, title: string)
    requires '/' !in title && !AllDots(title)
    ensures SplitExt(Basename(OutputPath(outputDir, title))) == (title, ".md")
  {
    DocumentNameBasename(outputDir, title);
    DocumentNameSplit(title);
  }

  lemma DocumentNameSplit(title: string)
    requires '/' !in title && !AllDots(title)
    ensures SplitExt(title + ".md") == (title, ".md")
  {
    var name := title + ".md";
    DocumentNameDots(title);
    assert '/' !in name by {
      assert forall c :: c in name ==> c in title || c in ".md";
    }
    LastIndexOfAbsent(name, '/');
    assert name[0..|title|] == title;
    assert name[..|title|] == title && name[|title|..] == ".md";
  }

  lemma DocumentNameDots(title: string)
    ensures LastIndexOf(title + ".md", '.') == |title|
  {
    assert title + ".md" == (title + ".") + "md";
    LastIndexOfAppend(title + ".", "md", '.');
    assert LastIndexOf(title + ".", '.') == |title|;
  }

  class OutputGenerator {
    const outputDir: string

    /** `__init__`: the output directory (models and directory creation are not modelled). */
    constructor(outputDir: string)
      ensures this.outputDir == outputDir
    {
      this.outputDir := outputDir;
    }

    /**
     * `_prepare_content`: one section per segment, in order, each with the
     * segment's text and start and the frame its score row ranks first.
     * Without segments or without frames the alignment raises:
     * `cosine_similarity` rejects an empty embedding matrix.
     */
    method PrepareContent(title: string, segments: seq<Segment>, frames: seq<FrameRecord>, scores: seq<seq<real>>)
      returns (r: Result<Content, string>)
      requires IsScoreMatrix(scores, |segments|, |frames|)
      ensures r.Err? <==> segments == [] || frames == []
      ensures r.Ok? ==>
        && r.value.title == title
        && |r.value.sections| == |segments|
        && forall i :: 0 <= i < |segments| ==>
          && r.value.sections[i].text == segments[i].text
          && r.value.sections[i].time == segments[i].start
          && r.value.sections[i].frame == frames[Argmax(scores[i])]
    {
      if segments == [] {
        return Err("ValueError: cosine_similarity of an empty text matrix");
      }
      var sections: seq<Section> := [];
      for i := 0 to |segments|
        invariant |sections| == i
        invariant |frames| > 0 || i == 0
        invariant forall j :: 0 <= j < i ==>
          sections[j] == Section(segments[j].text, segments[j].start, frames[Argmax(scores[j])])
      {
        if |scores[i]| == 0 {
          return Err("ValueError: cosine_similarity of an empty frame matrix");
        }
        var best := Argmax(scores[i]);
        sections := sections + [Section(segments[i].text, segments[i].start, frames[best])];
      }
      return Ok(Content(title, sections));
    }

    /**
     * The writer of `_generate_markdown`, with the image line's alt text read
     * from the frame's `altKey` field: the file is created, the header
     * written, then each section until one whose frame lacks that field.
     */
    method WriteDocument(content: Content, altKey: string, formatTime: real -> string, disk: Disk)
      returns (r: Result<string, string>)
      modifies disk
      ensures var path := OutputPath(outputDir, content.title);
        var (body, ok) := RenderUpTo(content.sections, |content.sections|, altKey, formatTime);
        && disk.files == old(disk.files)[path := Header(content.title) + body]
        && r == if ok then Ok(path) else Err("'" + altKey + "'")
    {
      var path := OutputPath(outputDir, content.title);
      var sections := content.sections;
      var header := Header(content.title);
      ghost var start := disk.files;
      disk.Create(path);
      disk.Append(path, header);
      Overwrite(start, path, "", "" + header);
      assert "" + header == header + RenderUpTo(sections, 0, altKey, formatTime).0;
      for i := 0 to |sections|
        invariant RenderUpTo(sections, i, altKey, formatTime).1
        invariant disk.files == start[path := header + RenderUpTo(sections, i, altKey, formatTime).0]
      {
        var section := sections[i];
        ghost var done := header + RenderUpTo(sections, i, altKey, formatTime).0;
        RenderStep(sections, i, altKey, formatTime, header);
        var timeLine := TimeLine(section.time, formatTime);
        disk.Append(path, timeLine);
        Overwrite(start, path, done, done + timeLine);
        var alt := TextField(section.frame, altKey);
        if alt.None? {
          RenderStops(sections, i + 1, |sections|, altKey, formatTime);
          return Err("'" + altKey + "'");
        }
        var block := ImageAndText(alt.value, section);
        disk.Append(path, block);
        Overwrite(start, path, done + timeLine, done + timeLine + block);
      }
      return Ok(path);
    }

    /**
     * `_generate_markdown` as written: the alt text is the frame's
     * `description`, a key frame records do not have, so any section makes
     * it fail after the header and that section's time line.
     */
    method GenerateMarkdownAsWritten(content: Content, formatTime: real -> string, disk: Disk)
      returns (r: Result<string, string>)
      modifies disk
      ensures var path := OutputPath(outputDir, content.title);
        if content.sections == [] then
          r == Ok(path) && disk.files == old(disk.files)[path := Header(content.title)]
        else
          && r.Err?
          && disk.files == old(disk.files)[path := Header(content.title) + TimeLine(content.sections[0].time, formatTime)]
    {
      r := WriteDocument(content, "description", formatTime, disk);
      if content.sections != [] {
        DescriptionRendering(content.sections, formatTime);
      } else {
        assert Header(content.title) + "" == Header(content.title);
      }
    }

    /**
     * `_generate_markdown` with the alt text read from `caption`: the file
     * `<output_dir>/<title>.md` holds the header and every section in order.
     */
    method GenerateMarkdown(content: Content, formatTime: real -> string, disk: Disk)
      returns (path: string)
      modifies disk
      ensures path == OutputPath(outputDir, content.title)
      ensures disk.files == old(disk.files)[path := Header(content.title) + Blocks(content.sections, formatTime)]
    {
      var r := WriteDocument(content, "caption", formatTime, disk);
      CaptionRendering(content.sections, |content.sections|, formatTime);
      assert content.sections[..|content.sections|] == content.sections;
      path := r.value;
    }

    /**
     * `generate` with the corrected writer `GenerateMarkdown`: align, then
     * write; an alignment error propagates and nothing is written.
     * `GenerateAsWritten` is `generate` with the writer as it stands.
     */
    method Generate(title: string, segments: seq<Segment>, frames: seq<FrameRecord>, scores: seq<seq<real>>,
                    formatTime: real -> string, disk: Disk)
      returns (r: Result<string, string>)
      requires IsScoreMatrix(scores, |segments|, |frames|)
      modifies disk
      ensures r.Err? <==> segments == [] || frames == []
      ensures r.Err? ==> disk.files == old(disk.files)
      ensures r.Ok? ==> r.value == OutputPath(outputDir, title) && r.value in disk.files
    {
      var content := PrepareContent(title, segments, frames, scores);
      if content.Err? {
        return Err(content.error);
      }
      var path := GenerateMarkdown(content.value, formatTime, disk);
      return Ok(path);
    }

    /**
     * `generate` as written: align, then `_generate_markdown` as it stands.
     * It always fails: without segments or frames in the alignment, before
     * any file is opened; otherwise in the writer, after the header and the
     * first section's time line.
     */
    method GenerateAsWritten(title: string, segments: seq<Segment>, frames: seq<FrameRecord>, scores: seq<seq<real>>,
                             formatTime: real -> string, disk: Disk)
      returns (r: Result<string, string>)
      requires IsScoreMatrix(scores, |segments|, |frames|)
      modifies disk
      ensures r.Err?
      ensures segments == [] || frames == [] ==> disk.files == old(disk.files)
      ensures segments != [] && frames != [] ==>
        disk.files == old(disk.files)[OutputPath(outputDir, title) := Header(title) + TimeLine(segments[0].start, formatTime)]
    {
      var content := PrepareContent(title, segments, frames, scores);
      if content.Err? {
        return Err(content.error);
      }
      r := GenerateMarkdownAsWritten(content.value, formatTime, disk);
    }
  }
}
