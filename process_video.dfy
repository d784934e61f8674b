/**
 * `process_video`: the command-line pipeline. It checks that the video
 * exists, loads the configuration (or its defaults), creates the working
 * directories, and runs four stages in a fixed order: audio extraction,
 * frame processing, transcription and document generation. What each stage
 * returns comes from an `Environment`; the model records which stages
 * started, with the arguments the pipeline passed them.
 */
module ProcessVideo {
  import opened Wrappers
  import opened Paths
  import opened Values
  import TranscriptionManager
  import FrameProcessor
  import OutputGenerator

  type Segment = TranscriptionManager.Segment
  type FrameRecord = FrameProcessor.FrameRecord

  // ---------------------------------------------------------------------------
  // The title

  /** `os.path.splitext(os.path.basename(video_path))[0]`. */
  function Title(videoPath: string): (title: string)
    ensures '/' !in title
    ensures var name := Basename(videoPath); |title| <= |name| && title == name[..|title|]
    ensures SplitExt(Basename(videoPath)).0 == title
  {
    var name := Basename(videoPath);
    var parts := SplitExt(name);
    assert name[..|parts.0|] == parts.0;
    assert forall c :: c in parts.0 ==> c in name;
    parts.0
  }

  /**
   * The document is named after the video: the title read back from the
   * document's path is the video's title, unless that title is empty or all dots.
   */
  lemma DocumentNamedAfterVideo(outputDir: string, videoPath: string)
    requires !AllDots(Title(videoPath))
    ensures Title(OutputGenerator.OutputPath(outputDir, Title(videoPath))) == Title(videoPath)
  {
    OutputGenerator.OutputPathTitle(outputDir, Title(videoPath));
  }

  // ---------------------------------------------------------------------------
  // The configuration

  /** `config/config.yaml`: absent, or what `yaml.safe_load` made of it (the error text where it raises). */
  datatype ConfigSource = NoConfigFile | ConfigFileRead(document: Result<Value, string>)

  /** The configuration used when there is no file. */
  const DefaultConfig: Value := Dict(map[
    "temp_dir" := Str("temp"),
    "output_dir" := Str("output"),
    "transcription" := Dict(map["model" := Str("base"), "use_gpu" := Bool(false)]),
    "video_processing" := Dict(map["max_frames" := Int(20), "frame_mode" := Str("interval"), "frame_interval" := Int(30)]),
    "blip" := Dict(map["enabled" := Bool(false)])
  ])

  /** `load_config`: the defaults without a file, otherwise the parsed file as it is, unvalidated. */
  function LoadConfig(source: ConfigSource): (r: Result<Value, string>)
    ensures source.NoConfigFile? ==> r == Ok(DefaultConfig)
    ensures source.ConfigFileRead? ==> r == source.document
  {
    match source
    case NoConfigFile => Ok(DefaultConfig)
    case ConfigFileRead(document) => document
  }

  /** `"cuda" if use_gpu and torch.cuda.is_available() else "cpu"`. */
  function Device(useGpu: Value, cudaAvailable: bool): (device: string)
    ensures device == "cuda" <==> Truthy(useGpu) && cudaAvailable
    ensures device != "cuda" ==> device == "cpu"
  {
    if Truthy(useGpu) && cudaAvailable then "cuda" else "cpu"
  }

  /** `config['transcription'].get('use_gpu', False)` is present and true. */
  predicate GpuRequested(config: Value) {
    match Subscript(config, "transcription")
    case Err(_) => false
    case Ok(t) =>
      match GetOr(t, "use_gpu", Bool(false))
      case Err(_) => false
      case Ok(u) => Truthy(u)
  }

  /** The defaults hold every key the pipeline reads, name the directories `temp` and `output`, and leave the GPU off. */
  lemma DefaultComplete()
    ensures Complete(DefaultConfig)
    ensures Subscript(DefaultConfig, "temp_dir") == Ok(Str("temp"))
    ensures Subscript(DefaultConfig, "output_dir") == Ok(Str("output"))
    ensures !GpuRequested(DefaultConfig)
  {
  }

  // ---------------------------------------------------------------------------
  // The pipeline

  /** What the last stage receives: the title, the raw transcript segments and the frame records. */
  datatype Data = Data(title: string, segments: seq<Segment>, frames: seq<FrameRecord>)

  /** A stage that started, with the arguments the pipeline gave it. */
  datatype Stage =
    | ExtractAudio(tempDir: Value)
    | ProcessFrames(outputDir: Value, maxFrames: Value, mode: Value, blipEnabled: Value)
    | Transcribe(model: Value, device: string, audioPath: string)
    | GenerateOutput(outputDir: Value, data: Data)

  /** Every key the pipeline reads from the configuration is there. */
  predicate Complete(config: Value) {
    && Subscript(config, "temp_dir").Ok?
    && Subscript(config, "output_dir").Ok?
    && FramesStage(config, Null).Ok?
    && TranscribeStage(config, false, "").Ok?
  }

  /**
   * The frame stage's arguments, read from the configuration in the order
   * the pipeline reads them; Err where a key is missing.
   */
  function FramesStage(config: Value, outputDir: Value): (r: Result<Stage, string>)
    ensures r.Ok? ==> r.value.ProcessFrames? && r.value.outputDir == outputDir
    ensures r.Ok? <==>
      && Subscript(config, "video_processing").Ok?
      && Subscript(Subscript(config, "video_processing").value, "max_frames").Ok?
      && Subscript(Subscript(config, "video_processing").value, "frame_mode").Ok?
      && Subscript(config, "blip").Ok?
      && Subscript(Subscript(config, "blip").value, "enabled").Ok?
    ensures r.Ok? ==>
      var videoProcessing := Subscript(config, "video_processing").value;
      r.value == ProcessFrames(outputDir, Subscript(videoProcessing, "max_frames").value,
                               Subscript(videoProcessing, "frame_mode").value,
                               Subscript(Subscript(config, "blip").value, "enabled").value)
    ensures config == DefaultConfig ==> r == Ok(ProcessFrames(outputDir, Int(20), Str("interval"), Bool(false)))
  {
    match Subscript(config, "video_processing")
    case Err(e) => Err(e)
    case Ok(videoProcessing) =>
      match (Subscript(videoProcessing, "max_frames"), Subscript(videoProcessing, "frame_mode"), Subscript(config, "blip"))
      case (Ok(maxFrames), Ok(mode), Ok(blip)) =>
        (match Subscript(blip, "enabled")
         case Ok(enabled) => Ok(ProcessFrames(outputDir, maxFrames, mode, enabled))
         case Err(e) => Err(e))
      case _ => Err("KeyError")
  }

  /**
   * The transcription stage's arguments: the model name and the device, read
   * from the configuration; Err where a key is missing.
   */
  function TranscribeStage(config: Value, cudaAvailable: bool, audioPath: string): (r: Result<Stage, string>)
    ensures r.Ok? ==> r.value.Transcribe? && r.value.audioPath == audioPath
    ensures r.Ok? <==>
      && Subscript(config, "transcription").Ok?
      && Subscript(Subscript(config, "transcription").value, "model").Ok?
      && GetOr(Subscript(config, "transcription").value, "use_gpu", Bool(false)).Ok?
    ensures r.Ok? ==> r.value.model == Subscript(Subscript(config, "transcription").value, "model").value
    ensures r.Ok? ==> (r.value.device == "cuda" <==> GpuRequested(config) && cudaAvailable)
    ensures config == DefaultConfig ==> r == Ok(Transcribe(Str("base"), "cpu", audioPath))
  {
    match Subscript(config, "transcription")
    case Err(e) => Err(e)
    case Ok(transcription) =>
      match (Subscript(transcription, "model"), GetOr(transcription, "use_gpu", Bool(false)))
      case (Ok(model), Ok(useGpu)) => Ok(Transcribe(model, Device(useGpu, cudaAvailable), audioPath))
      case _ => Err("KeyError")
  }

  /**
   * What the outside world answers: whether the video exists, the
   * configuration file, whether `os.makedirs` succeeds for a path, the audio
   * path the extractor returns, what frame processing returns, whether CUDA
   * is available, the transcript segments Whisper returns, and whether
   * document generation succeeds for an output directory and data. None or
   * Err stands for a raised exception.
   */
  datatype Environment = Environment(
    videoExists: bool,
    config: ConfigSource,
    makeDirs: Value -> bool,
    audio: Option<string>,
    frames: Result<seq<FrameRecord>, string>,
    cudaAvailable: bool,
    transcript: Option<seq<Segment>>,
    generate: (Value, Data) -> bool)

  /**
   * `process_video`: False for a missing video before anything runs;
   * otherwise the stages start in order, any exception stops the run with
   * False, and True once document generation returns.
   */
  method Run(videoPath: string, env: Environment) returns (ok: bool, trace: seq<Stage>)
    ensures !env.videoExists ==> !ok && trace == []
    ensures |trace| <= 4
    ensures |trace| >= 2 ==> trace[1].ProcessFrames?
    ensures |trace| >= 3 ==> trace[2].Transcribe?
    ensures ok <==> |trace| == 4 && trace[3].GenerateOutput? && env.generate(trace[3].outputDir, trace[3].data)
    ensures |trace| >= 1 ==> var config := LoadConfig(env.config);
      && config.Ok?
      && trace[0].ExtractAudio? && Subscript(config.value, "temp_dir") == Ok(trace[0].tempDir)
      && Subscript(config.value, "output_dir").Ok?
      && env.makeDirs(trace[0].tempDir)
      && env.makeDirs(Subscript(config.value, "output_dir").value)
    ensures |trace| >= 2 ==> var config := LoadConfig(env.config).value;
      && env.audio.Some?
      && FramesStage(config, Subscript(config, "output_dir").value) == Ok(trace[1])
    ensures |trace| >= 3 ==> var config := LoadConfig(env.config).value;
      && env.frames.Ok?
      && TranscribeStage(config, env.cudaAvailable, env.audio.value) == Ok(trace[2])
    ensures |trace| == 4 ==> var config := LoadConfig(env.config).value;
      && env.transcript.Some?
      && trace[3] == GenerateOutput(Subscript(config, "output_dir").value,
                                    Data(Title(videoPath), env.transcript.value, env.frames.value))
    ensures (&& env.videoExists && LoadConfig(env.config).Ok?
             && Subscript(LoadConfig(env.config).value, "temp_dir").Ok?
             && Subscript(LoadConfig(env.config).value, "output_dir").Ok?
             && env.makeDirs(Subscript(LoadConfig(env.config).value, "temp_dir").value)
             && env.makeDirs(Subscript(LoadConfig(env.config).value, "output_dir").value)) ==>
      |trace| >= 1
    ensures |trace| >= 1 ==> var config := LoadConfig(env.config).value;
      env.audio.Some? && FramesStage(config, Subscript(config, "output_dir").value).Ok? ==> |trace| >= 2
    ensures |trace| >= 2 ==> var config := LoadConfig(env.config).value;
      env.frames.Ok? && TranscribeStage(config, env.cudaAvailable, env.audio.value).Ok? ==> |trace| >= 3
    ensures |trace| >= 3 ==> env.transcript.Some? ==> |trace| == 4
    ensures env.videoExists && LoadConfig(env.config).Ok? && Complete(LoadConfig(env.config).value) ==>
      var config := LoadConfig(env.config).value;
      var outputDir := Subscript(config, "output_dir").value;
      (&& env.makeDirs(Subscript(config, "temp_dir").value) && env.makeDirs(outputDir)
       && env.audio.Some? && env.frames.Ok? && env.transcript.Some?
       && env.generate(outputDir, Data(Title(videoPath), env.transcript.value, env.frames.value))
       ==> ok)
  {
    trace := [];
    if !env.videoExists {
      return false, trace;
    }
    var loaded := LoadConfig(env.config);
    if loaded.Err? {
      return false, trace;
    }
    var config := loaded.value;
    var tempDir := Subscript(config, "temp_dir");
    if tempDir.Err? || !env.makeDirs(tempDir.value) {
      return false, trace;
    }
    var outputDir := Subscript(config, "output_dir");
    if outputDir.Err? || !env.makeDirs(outputDir.value) {
      return false, trace;
    }

    // 1. Audio
    var audioStage := ExtractAudio(tempDir.value);
    trace := [audioStage];
    if env.audio.None? {
      return false, trace;
    }
    var audioPath := env.audio.value;

    // 2. Frames
    var frameStage := FramesStage(config, outputDir.value);
    if frameStage.Err? {
      return false, trace;
    }
    trace := [audioStage, frameStage.value];
    if env.frames.Err? {
      return false, trace;
    }
    var frames := env.frames.value;

    // 3. Transcription
    var transcribeStage := TranscribeStage(config, env.cudaAvailable, audioPath);
    if transcribeStage.Err? {
      return false, trace;
    }
    trace := [audioStage, frameStage.value, transcribeStage.value];
    if env.transcript.None? {
      return false, trace;
    }
    var segments := env.transcript.value;

    // 4. Output
    var data := Data(Title(videoPath), segments, frames);
    trace := [audioStage, frameStage.value, transcribeStage.value, GenerateOutput(outputDir.value, data)];
    if !env.generate(outputDir.value, data) {
      return false, trace;
    }
    return true, trace;
  }
}
