# youtube-educational-converter, modelled in Dafny

This project models the decision logic of the YouTube educational
converter, which turns a lecture video into a Markdown document. In the
pipeline:

- Whisper transcribes the audio into time-stamped segments.
- Screenshots are taken from the video, optionally captioned and embedded.
- Each transcript segment is matched with its most similar screenshot.
- The result is written as `<output_dir>/<title>.md`.

Around the pipeline sit a Flask/Celery web server and a YouTube Data API
client. All machine-learning engines, the video decoder, the network, the
clock and the file system are given as inputs or as functions. The model
keeps only what the program itself decides.

The modules follow the program's files:

- `TranscriptionManager` (`transcription_manager.dfy`) is the gap-based
  merge of transcript segments into passages. It holds the loop, a complete
  description of its result in terms of "breaks", and properties derived
  from that description.
- `FrameProcessor` (`frame_processor.dfy`) is the frame loop with its skips,
  the record built for one frame, screenshot paths and the final truncation.
- `OutputGenerator` (`output_generator.dfy`) holds:
  - the first-maximum argmax that attaches a frame to every segment;
  - the Markdown layout;
  - the output path;
  - the document writer over a file store.
- `Server` (`server.dfy`) holds:
  - the task-status reply;
  - the cookie authorisation check;
  - cookie formatting and saving;
  - the old-file sweep;
  - configuration validation with a fallback.
- `ProcessVideo` (`process_video.dfy`) is the command-line pipeline. It holds
  the stage order and arguments, the outcome, the document title and the
  default configuration.
- `YouTubeApi` (`youtube_api.dfy`) holds the bounded OAuth retry with
  exponential back-off, the video-information lookup and the watch URL.
- Support modules:
  - `Wrappers`: Option and Result.
  - `Text`: `str.strip`, ASCII `lower`, substring `in` and `str(int)`.
  - `Paths`: POSIX `basename`, `splitext` and `join`.
  - `Values`: YAML/JSON values with Python's subscripting, `.get`,
    truthiness and `in`, including the text of the errors they raise.
  - `FileStore`: a `Disk` class whose `files` map the writers change in place.

Python exceptions are modelled as `Err`/`None` results carrying the text
Python would print. A `try`/`except` becomes a branch on that result.

## Model

| member | source | states |
|---|---|---|
| TranscriptionManager.ProcessSegments | src/transcription_manager.py:39-60 | the loop over the segments, with its open passage and final flush, returns exactly the passages `Merged` describes |
| TranscriptionManager.Breaks | src/transcription_manager.py:49-55 | the positions where a new passage starts: each greater than the one before, each between 1 and n-1, fewer than n of them |
| TranscriptionManager.BreaksAreGaps | src/transcription_manager.py:49-50 | a position is a break if and only if its segment starts at least `min_duration` after the previous segment ends |
| TranscriptionManager.ScanShape | src/transcription_manager.py:44-55 | after i iterations: the closed passages are the runs between consecutive breaks, and the open passage is the run from the last break through segment i-1. A run keeps its first segment's start and text, ends at its last segment's end, and appends `' ' + strip(text)` for each later segment |
| TranscriptionManager.ScanMerge | src/transcription_manager.py:49-52 | a segment that starts less than `min_duration` after the open passage ends extends that passage and keeps the description |
| TranscriptionManager.ScanBreak | src/transcription_manager.py:53-55 | a segment after a gap closes the open passage and starts a new one; the description still holds |
| Text.StripShape | src/transcription_manager.py:51 | `strip()` returns the slice left after cutting whitespace (Python's `isspace` set) from both ends; the result neither starts nor ends with whitespace |
| TranscriptionManager.ClosedRunsClose | src/transcription_manager.py:54 | appending the finished run to the closed passages extends the run description by one break |
| TranscriptionManager.MergedShape | src/transcription_manager.py:44-60 | for non-empty input, the output has one passage per break plus one, and passage j is exactly run j |
| TranscriptionManager.RunsFlush | src/transcription_manager.py:57-58 | flushing the open passage completes the list of runs |
| TranscriptionManager.MergedCount | src/transcription_manager.py:41-58 | no segments give no passages; otherwise 1 + (number of gaps) passages, at least one and at most one per segment |
| TranscriptionManager.MergedEndpoints | src/transcription_manager.py:46-58 | the first passage starts with the first segment and the last passage ends with the last segment |
| TranscriptionManager.MergedGaps | src/transcription_manager.py:49-55 | consecutive passages are at least `min_duration` apart |
| TranscriptionManager.MergedForward | src/transcription_manager.py:50-52 | for time-ordered segments, every passage starts no later than it ends |
| TranscriptionManager.MergedChronological | src/transcription_manager.py:49-55 | time-ordered segments with a non-negative `min_duration` give time-ordered passages that do not overlap |
| FrameProcessor.FrameFileName | src/frame_processor.py:123 | the screenshot name `frame_<idx>.jpg` contains no `/` |
| FrameProcessor.FrameFileNameInjective | src/frame_processor.py:123 | different frame indices give different screenshot names |
| FrameProcessor.Take | src/frame_processor.py:167 | Python's `s[:n]` is a prefix: n elements (or all) for n >= 0, and `len + n` (or none) for negative n |
| FrameProcessor.FrameProcessor.constructor | src/frame_processor.py:12-25 | keeps the settings and puts the screenshots directory under the output directory |
| FrameProcessor.FrameProcessor.FramePath | src/frame_processor.py:123 | the screenshot path's basename is `frame_<idx>.jpg` |
| FrameProcessor.FrameProcessor.FramePathInjective | src/frame_processor.py:123 | distinct indices are saved to distinct paths |
| FrameProcessor.FrameProcessor.ProcessFrame | src/frame_processor.py:115-143 | a record exists if and only if saving, captioning (when BLIP is on) and embedding succeed. The record carries the index and the screenshot path. Its caption is the model's caption with BLIP on and `""` otherwise, and its embedding is the caption's |
| FrameProcessor.FrameProcessor.KeptFrames | src/frame_processor.py:91-104 | the loop keeps, in index-list order, the records of exactly those indices whose read and processing succeed; failures are skipped |
| FrameProcessor.FrameProcessor.KeptRecords | src/frame_processor.py:91-104 | every kept record belongs to an index of the list that read successfully, and lies at that index's screenshot path |
| FrameProcessor.FrameProcessor.SelectMostRelevant | src/frame_processor.py:161-175 | the selection is a prefix of the kept frames in their order: exactly `max_frames` of them when there are more, all of them otherwise, and Python's negative-bound slice length for a negative `max_frames` |
| FrameProcessor.FrameProcessor.Process | src/frame_processor.py:77-113 | an error if and only if the video cannot be opened; otherwise the truncated kept records |
| OutputGenerator.Argmax | src/output_generator.py:32 | the chosen index is in range, its score is at least every score in the row, and every earlier score is strictly smaller (ties go to the lowest index) |
| OutputGenerator.ArgmaxUnique | src/output_generator.py:32 | any index that is maximal with no earlier maximum is the one `Argmax` returns |
| OutputGenerator.TextField | src/output_generator.py:53 | of the text fields read while rendering, a frame record has only `path` and `caption` (the record built at src/frame_processor.py:134-139) |
| OutputGenerator.RenderStep | src/output_generator.py:51-54 | each further section appends its time line, its image line and its text with a blank line, or stops after the time line when the alt-text field is missing |
| OutputGenerator.RenderStops | src/output_generator.py:53 | once a lookup has failed, nothing more is written |
| OutputGenerator.CaptionRendering | src/output_generator.py:50-54 | reading `caption`, every section is rendered, in order |
| OutputGenerator.DescriptionRendering | src/output_generator.py:52-53 | reading `description`, rendering stops after the first section's time line |
| OutputGenerator.OutputPath | src/output_generator.py:47 | for a title without `/`, the document's file name is `<title>.md` |
| OutputGenerator.OutputPathTitle | src/output_generator.py:47 | splitting the extension off the document's file name gives back the title and `.md` |
| OutputGenerator.OutputGenerator.constructor | src/output_generator.py:9-13 | keeps the output directory |
| OutputGenerator.OutputGenerator.PrepareContent | src/output_generator.py:24-44 | one section per segment, in order, with the segment's text and start and the first best-scoring frame. No segments or no frames are an error: the similarity step rejects an empty embedding matrix |
| OutputGenerator.OutputGenerator.WriteDocument | src/output_generator.py:46-56 | the file holds the header and the rendering up to the first missing field; the path is returned exactly when nothing was missing |
| OutputGenerator.OutputGenerator.GenerateMarkdownAsWritten | src/output_generator.py:46-56 | as written: an empty document succeeds; any section leaves the header and one time line in the file and fails |
| OutputGenerator.OutputGenerator.GenerateMarkdown | src/output_generator.py:46-56 | the file `<output_dir>/<title>.md` holds `# <title>` and a blank line, then every section's block in order |
| OutputGenerator.OutputGenerator.Generate | src/output_generator.py:15-22 | `generate` with the corrected writer: fails if and only if there are no segments or no frames, and then nothing is written; otherwise the document's path, now present in the store |
| OutputGenerator.OutputGenerator.GenerateAsWritten | src/output_generator.py:15-22 | `generate` as it stands always fails. With no segments or no frames it fails in the alignment before any file is written; otherwise it fails in the writer, leaving the header and the first section's time line |
| Server.ReportedProgress | src/server.py:269 | 0 for an empty payload; otherwise the payload's `progress` (0 when absent), and an error when the payload is not a dictionary |
| Server.GetTaskStatus | src/server.py:236-280 | pending and unknown states give processing at 0; success gives completed at 100 with the result; failure gives failed at 0 with the error text; progress gives processing with the reported progress and no other field; a failing lookup or a progress payload without `get` gives a 500 reply with only the status and the error |
| Server.Elements | src/server.py:425-430 | iterating the cookie document: a list yields its items; anything else yields nothing or fails |
| Server.CheckAuth | src/server.py:414-438 | a missing cookie file is unauthorised with "No cookies found"; an error reply is never authorised |
| Server.AnyNamedSound | src/server.py:430 | a found cookie name really occurs in the list |
| Server.AnyNamedComplete | src/server.py:430 | when every cookie has a name, the search finds a name exactly when it occurs |
| Server.AllRequiredSound | src/server.py:429-432 | passing the check means every required name occurs |
| Server.AllRequiredComplete | src/server.py:429-432 | when every cookie has a name, the check passes exactly when every required name occurs |
| Server.CheckAuthSound | src/server.py:419-434 | an authorised reply means the file is a JSON list naming CONSENT, VISITOR_INFO1_LIVE and LOGIN_INFO |
| Server.CheckAuthComplete | src/server.py:428-434 | for a list of named cookies, the reply is authorised exactly when each required name occurs, with no error |
| Server.CookieDomain | src/server.py:468 | `.youtube.com` exactly when the lower-cased name contains `youtube`, otherwise `.google.com` |
| Server.FormatCookies | src/server.py:463-475 | one cookie per received pair, in order, with its name, value, domain and path `/`; an empty jar is 404 |
| Server.SavedCookies | src/server.py:481-483 | the saved file read back holds one JSON object per formatted cookie |
| Server.SavedCookiesAuthorize | src/server.py:463-483 | a cookie file the server saved authorises exactly when the received cookies include every required name |
| Server.Reached | src/server.py:194-197 | the sweep reaches the first listed file whose creation time cannot be read, and no further |
| Server.CleanupOldFiles | src/server.py:188-204 | with no configured maximum age nothing is removed. Otherwise exactly the files reached are removed that were created strictly more than `max_age` before now and whose removal does not fail. Nothing else changes |
| Server.LoadConfig | src/server.py:53-83 | the result always has temp_dir, memory, server and storage, in the sense of Python's `in` (a string or list document containing those words passes too). It is the file's document when that passes, and the defaults otherwise |
| Server.LoadConfigIdempotent | src/server.py:53-83 | loading a configuration the loader returned gives it back |
| ProcessVideo.Title | src/process_video.py:74 | the title has no `/`, is a prefix of the basename, and is what `splitext` leaves of the basename |
| ProcessVideo.DocumentNamedAfterVideo | src/process_video.py:74 | the document path's title is the video's title (when that title is not empty or all dots) |
| ProcessVideo.LoadConfig | src/process_video.py:16-30 | without a file, the defaults; with one, its document, unvalidated |
| ProcessVideo.DefaultComplete | src/process_video.py:21-27 | the defaults hold every key the pipeline reads, name `temp` and `output`, and leave the GPU off |
| ProcessVideo.Device | src/process_video.py:66 | `cuda` exactly when `use_gpu` is truthy and CUDA is available, otherwise `cpu` |
| ProcessVideo.FramesStage | src/process_video.py:53-58 | frame processing gets the output directory and the configured max_frames, frame_mode and blip.enabled. It starts only when all keys are present; the defaults give 20, `interval` and False |
| ProcessVideo.TranscribeStage | src/process_video.py:63-66 | transcription gets the configured model and the derived device; the defaults give `base` on the CPU |
| ProcessVideo.Run | src/process_video.py:32-90 | a missing video is False before any stage. Stages start in the order audio, frames, transcription, output, and each stage starts exactly when the one before it succeeded and its configuration keys are present, so a failed run shows how far it got. The run is True exactly when all four stages start and generation succeeds, and every stage succeeding gives True. Generation receives the title, the raw (unmerged) segments and the frames |
| YouTubeApi.LoadApiKey | src/youtube_api.py:17-23 | the stripped key file, or the "not found" error when it is missing |
| YouTubeApi.Backoff | src/youtube_api.py:53 | the n-th delay is 2^n seconds |
| YouTubeApi.FirstSuccess | src/youtube_api.py:27-49 | the first attempt that both obtains credentials and builds the client: every earlier attempt failed, or all attempts failed |
| YouTubeApi.CredentialsAfter | src/youtube_api.py:47 | the credentials field after failed attempts: the last credentials assigned before a `build` that raised, or the initial value |
| YouTubeApi.CredentialsAfterFailures | src/youtube_api.py:27-53 | after failed attempts the field is the initial value exactly when no attempt obtained credentials; otherwise it holds the credentials of an attempt whose build failed, and no later attempt obtained any |
| YouTubeApi.BackoffBounded | src/youtube_api.py:27-53 | fewer than three delays, each at most 2 s; after three failures the delays were exactly 1 s and 2 s |
| YouTubeApi.FirstItem | src/youtube_api.py:70 | `items[0]` of a non-empty list is its first element |
| YouTubeApi.ReadInfo | src/youtube_api.py:70-75 | title, duration and description are read when all the nested keys exist, otherwise the error |
| YouTubeApi.InfoFromResponse | src/youtube_api.py:60-78 | there is exactly one of info and error. A failed request yields its error text. A dictionary response without items yields "Видео не найдено". An info comes only from the first item of a non-empty item list, and such a list yields that item's info with no error when every field is there, or the first failed lookup's error text otherwise. A response that is not a dictionary, or whose items cannot be indexed, yields the text of the error Python raises |
| YouTubeApi.WatchUrl | src/youtube_api.py:87 | the URL is the watch prefix followed by the video id |
| YouTubeApi.WatchUrlInjective | src/youtube_api.py:87 | different videos give different URLs |
| YouTubeApi.DownloadReply | src/youtube_api.py:82-88 | a non-empty error passes through unchanged; otherwise the watch URL with the video's title; it raises only when there is neither an info nor a non-empty error |
| YouTubeApi.DownloadReplyOfResponse | src/youtube_api.py:55-88 | after a lookup, a URL is returned exactly when the video was found; the reply raises only for an error with empty text |
| YouTubeApi.YouTubeApi.constructor | src/youtube_api.py:12-15 | keeps the key, with no credentials and no client |
| YouTubeApi.YouTubeApi.Authenticate | src/youtube_api.py:25-53 | succeeds exactly when one of three attempts obtains credentials and builds the client; that attempt's credentials and client are stored. Credentials are stored before `build` runs, so a failed build still changes them. After each failed attempt but the last it sleeps 2^attempt s. A third failure raises without sleeping; the client is unchanged and the credentials are `CredentialsAfter` the three attempts |
| YouTubeApi.YouTubeApi.GetVideoInfo | src/youtube_api.py:55-78 | authenticates only when there is no client, and a failed authentication propagates. The client and credentials afterwards are the old ones, the first successful attempt's, or after a failed authentication the old client with `CredentialsAfter` the attempts. On success it answers from the request made with that client |
| YouTubeApi.YouTubeApi.GetDownloadUrl | src/youtube_api.py:80-88 | an authentication failure propagates; otherwise it gives the download reply for the lookup. The client and credentials afterwards are as for `GetVideoInfo` |

## Left out

- The ML engines are inputs: Whisper, BLIP, SentenceTransformer, CLIP and scikit-learn's `cosine_similarity`. Transcripts, captions, embeddings and the similarity matrix are given, and no floating-point arithmetic is modelled.
- TranscriptionManager.ProcessSegments: `min_duration` is a parameter. `transcribe` calls it with the default of 2.0 seconds, and `transcribe` itself (loading Whisper and running it) is not modelled.
- Values.Value has no floating-point case. Numbers with a fraction in a YAML or JSON document, such as a float `progress` reported by a task or a float in the configuration, are not represented.
- OpenCV decoding and PIL image saving are per-index answers in `Engines`. Images are not written to the file store. `_get_frame_indices`, `_generate_caption` and `_get_embedding` are not defined in the frame processor's source, so the index list, the caption and the embedding are inputs.
- Directory creation is not modelled: `mkdir` and `os.makedirs` in the constructors, and in `ProcessVideo.Run` beyond its success flag.
- `pathlib` normalisation of paths (collapsing `//`, dropping `.`) is not modelled. Paths are joined as `os.path.join` joins strings.
- Times are formatted by a given function. The `:.1f` float formatting is not modelled.
- Lower-casing is ASCII only; no non-ASCII character lowers to a letter of `youtube`, so the domain rule is unaffected.
- Exception texts follow CPython's wording where the program reports them (`KeyError` as `'key'`, `TypeError` messages). Other texts are free strings.
- The Flask routes and HTTP status plumbing beyond the replies modelled are left out, as are Celery dispatch, Redis, Prometheus and the scheduler. `check_disk_space` and the memory gate read live OS metrics.
- The network requests of `get_youtube_cookies` and `check_youtube_auth`, the OAuth flow, `token.pickle` I/O and the HTTP request to the YouTube API are left out. They appear as answers: a cookie jar, an attempt outcome per attempt, and a response per client and id.
- `time.sleep` is recorded as the list of delays, and `time.time()` is a parameter.
- Server.CleanupOldFiles: `os.walk` is a given listing and `getctime` a given map. `max_age` comes from `app.config['storage']`, which the server never sets, so in the running program it is the `None` case.
- ProcessVideo.Run: what the four stages return is given by the environment, and the run does not call `FrameProcessor.Process` or `OutputGenerator.Generate`. The stages receive untyped configuration values and Whisper's segment dictionaries, which those members do not take.
- FrameProcessor.FrameProcessor.Process: `max_frames` is an integer, while the pipeline passes whatever the configuration holds.
- OutputGenerator.OutputGenerator.Generate: uses the corrected writer `GenerateMarkdown`. The source's `generate` fails for every input, as `GenerateAsWritten` states. It states the path and that the file exists, not the contents; `PrepareContent` and `GenerateMarkdown` state those.
- Python dictionaries keep insertion order. The cookie jar is a sequence of pairs and is not required to have distinct names.
- The audio extractor, video downloader, video converter, `main.py`, the local-processing script and the browser script are not part of this model.

## Findings

| source | as written | input that shows it | evidently intended | confidence | as-written member | corrected member |
|---|---|---|---|---|---|---|
| src/output_generator.py:53 | the image line's alt text is read from `section['frame']['description']` | any content with one section whose frame is a record from `_process_frame` (src/frame_processor.py:134-139), which has `path`, `index`, `caption` and `embedding` but no `description`: the file is left holding the header and one time line, and a KeyError is raised | the alt text is the frame's `caption`, and every section is written; `Generate` uses this corrected writer, while `GenerateAsWritten` shows that `generate` as written fails for every input (with no segments or no frames the alignment already fails) | high, not executed | OutputGenerator.OutputGenerator.GenerateMarkdownAsWritten | OutputGenerator.OutputGenerator.GenerateMarkdown |
