# amv-uploader, modelled in Dafny

amv-uploader turns one source video into an MP4 and a thumbnail image, then
uploads both to an S3 bucket and returns the video's public URL. This project
models the core of `amv-uploader-class.rb`:

- the renderer classes (`AmvRendererBase` and `MP4Renderer`);
- the uploader classes (`AmvUploaderBase` and `AwsUploader`);
- the container class `AmvUploader`, whose `process`, `render` and `upload` methods chain the steps.

External effects are abstract events: transcoding, the faststart pass, probing, frame
extraction, object creation and URL lookup. Each operation returns its value,
the container's new state and the trace of events it caused, and the
contracts state what is and is not in that trace.

Modules:

- `Wrappers`: `Option`, which stands for Ruby's `nil`.
- `RubyCore`: the Ruby core behaviour the code relies on.
  - The three results of `Kernel#system`.
  - `Float#to_i`, which truncates toward zero.
  - Integer interpolation, as decimal text, and reading that text back.
  - `File.basename`.
- `Environment`: the `$Settings` tool paths, plus the outside world's answers for one run:
  - the readiness answer of `which`;
  - the exit statuses;
  - the probe output;
  - the temporary file paths.
- `Effects`: artifacts (temporary files) and the event trace.
- `Renderer`: the base-class defaults and `MP4Renderer#ready/type/render/thumbnail`.
- `Uploader`: the base-class defaults and `AwsUploader#ready/put/get_url`.
- `Orchestrator`: `AmvUploader#initialize/render/upload/process/errors`.
- `PipelineProperties`: properties of whole runs.

Class names resolve to a tag: a renderer class, an uploader class, or any
other class. The source's `cls < Base` test is strict, so it admits only a
proper subclass. The base classes themselves, and classes from the other
family, are turned away. A `ready` answer must be exactly `true`. `nil` and
`false` from `system` both fail it.

One might expect `upload` after a failed `render` to return false. In the
code, `render` never assigns `@dst` (amv-uploader-class.rb:198-214); only
`process` does (line 189). On a fresh container `@dst` is still nil, and
`upload` only guards on `@dst == false` (line 218). The guard therefore
passes, and `AwsUploader#put` evaluates `nil.path` (line 149) and raises
NoMethodError. No object is stored either way
(`PipelineProperties.DirectUploadAfterFailedRender`).

## Model

| member | source | states |
|---|---|---|
| RubyCore.TruncateToInt | amv-uploader-class.rb:87 | `to_i` truncates toward zero: for a non-negative value the result is the largest integer not above it, for a negative one the smallest not below it |
| RubyCore.Decimal | amv-uploader-class.rb:84 | interpolating a width or height writes a non-empty run of digits with no leading zero, and "0" exactly for zero |
| RubyCore.ParseNatDecimal | amv-uploader-class.rb:84 | reading the interpolated digits back gives the original number |
| RubyCore.DecimalInjective | amv-uploader-class.rb:84 | distinct sizes are written as distinct texts |
| RubyCore.Basename | amv-uploader-class.rb:148-150 | `File.basename` is empty only for the empty path, is "/" exactly for an all-slash path, and otherwise holds no slash |
| RubyCore.BasenameOfJoin | amv-uploader-class.rb:148-150 | the basename of `dir/name` is `name` for any slash-free non-empty name |
| RubyCore.BasenameOfName | amv-uploader-class.rb:148-150 | a bare slash-free file name is its own basename |
| Renderer.BaseRendererNeverReady | amv-uploader-class.rb:23-25 | the base renderer's `ready` is never true |
| Renderer.DimensionsRoundTrip | amv-uploader-class.rb:84 | the `<width>x<height>` text handed to ffmpeg names exactly the probed width and height |
| Renderer.DefaultDimensionsWellFormed | amv-uploader-class.rb:77 | the default "320x240" is the frame size 320 by 240 |
| Renderer.Mark | amv-uploader-class.rb:87 | the seek mark is the truncated half of the length: for a non-negative length L, 2·mark ≤ L < 2·mark + 2 |
| Renderer.Render | amv-uploader-class.rb:51-69 | `render` always transcodes the source first, runs faststart on the target iff a faststart path is configured, runs nothing else, and returns the target file |
| Renderer.RenderIgnoresExitStatus | amv-uploader-class.rb:56-66 | the file returned and the steps run do not depend on any tool's exit status |
| Renderer.Thumbnail | amv-uploader-class.rb:75-96 | `thumbnail` returns nil iff no ffmpeg path is set, probes iff an ffprobe path is set, and otherwise extracts exactly one frame from the media into the new file, as its last step |
| Renderer.ThumbnailDefaults | amv-uploader-class.rb:76-93 | without ffprobe the frame is grabbed at 15 seconds at 320x240 |
| Renderer.ThumbnailProbed | amv-uploader-class.rb:79-93 | with ffprobe the probe comes first, the frame size is the probed width and height, and the mark is the truncated half of the probed duration |
| Renderer.ThumbnailOfFortyTwoSeconds | amv-uploader-class.rb:79-93 | a 42-second 640x360 file gives a frame at 21 seconds at "640x360" |
| Uploader.ReadyOnlyForAws | amv-uploader-class.rb:109-111 | among the uploader classes, `ready` is true exactly for AwsUploader, whose `ready` is the constant true (lines 143-145) |
| Uploader.Put | amv-uploader-class.rb:147-162 | `put` raises iff there is neither a file nor a filename; otherwise it stores one object under the given filename, or the file's basename when none is given, with the given content type |
| Uploader.PutUnderFileName | amv-uploader-class.rb:147-150 | a file in some directory is stored under its own file name |
| Orchestrator.Init | amv-uploader-class.rb:175-180 | a new container has nothing rendered, uploaded or typed, and an empty error list |
| Orchestrator.Render | amv-uploader-class.rb:198-214 | `render` returns false with no event and no state change iff the class is not a proper renderer subclass or its `ready` is not exactly true; otherwise it returns the rendered file, records `video/mp4`, holds as `@thumbnail` exactly what `thumbnail` made of that file (present iff ffmpeg is configured), and its events are those of `render` followed by those of `thumbnail`, starting with the transcode |
| Orchestrator.Upload | amv-uploader-class.rb:217-244 | `upload` returns false iff `@dst` is false or the class is not a proper, ready uploader subclass; a nil `@dst` is not refused but raises; only a delivery causes events, and these are puts and URL lookups; a delivery returns the URL of the media stored under its basename |
| Orchestrator.Process | amv-uploader-class.rb:188-195 | `process` never raises on a nil `@dst`, since it only uploads a rendered file; it sets `@dst` to false iff the render fails, and then returns false with no `Put` and no other instance variable changed; otherwise `@dst` holds the rendered file and `@remote` holds what `upload` returned, false included; it returns a URL iff both classes are proper and ready; `@src` and `errors` are unchanged |
| PipelineProperties.UploadPuts | amv-uploader-class.rb:231-241 | with a rendered file in `@dst` and a proper uploader, `upload` delivers; it puts the media first under its basename and MIME type, then `<key>.jpg` as `image/jpeg` iff a thumbnail exists, nothing else; the URL returned is the media's and names no other put |
| PipelineProperties.UploadWithUnsetDst | amv-uploader-class.rb:217-232 | with `@dst` nil, `upload` through AwsUploader passes the guard and raises before storing anything |
| PipelineProperties.DirectUploadAfterFailedRender | amv-uploader-class.rb:198-232 | after a failed direct `render` on a new container, `upload` raises rather than returning false, and stores nothing |
| PipelineProperties.ProcessIsRenderThenUpload | amv-uploader-class.rb:188-192 | after a successful render, `process` is that render followed by `upload` on the render's state with `@dst` set to the file |
| PipelineProperties.ProcessReturnsMediaUrl | amv-uploader-class.rb:188-192 | with MP4Renderer ready and AwsUploader, `process` returns the URL of the rendered file under its own name |
| PipelineProperties.ProcessPuts | amv-uploader-class.rb:188-192 | with MP4Renderer ready and AwsUploader, the puts are the media as `video/mp4`, then the `<name>.jpg` thumbnail iff ffmpeg is configured |
| PipelineProperties.ProcessGrabsFrame | amv-uploader-class.rb:76-93 | a run with MP4Renderer ready and ffmpeg configured grabs a frame of the rendered file into the thumbnail file at 15 seconds and 320x240 without ffprobe, and at the probed size and the truncated half of the probed duration with it (the call is at line 210) |
| PipelineProperties.ProcessRendersBeforeUploading | amv-uploader-class.rb:188-192 | in every run every subprocess precedes every upload event, and a successful render starts with the transcode |
| PipelineProperties.ErrorsStayEmpty | amv-uploader-class.rb:246-248 | after any sequence of `render`, `upload` and `process` calls on a new container, `errors` is empty |

## Left out

- Shell command strings, their quoting, `which` and `system`/backtick execution are I/O. Readiness and exit statuses are inputs (`Environment.World`).
- `AWS.config` in `AwsUploader#initialize`, the S3 client, the bucket lookup and the public-read ACL are calls into the AWS SDK. An object is known by bucket and key, and `public_url` is an abstract value of the same two.
- Ruby raises on some probe output (amv-uploader-class.rb:82-84), and the exception would pass up through `render` and `process`:
  - output that is not JSON makes `JSON.load` raise `JSON::ParserError`;
  - blank output loads as nil, and JSON without a usable `streams[0]` yields nil along the way, so indexing into `video_data['streams'][0]` raises NoMethodError.

  This is not modelled: `ProbeData` is always well-formed, so the model's `process` never raises on that path.
- JSON parsing of ffprobe output and `to_f` are left out. The duration is an exact real, not an IEEE float, so NaN and infinities are not modelled. Width and height are natural numbers; a missing field, which Ruby would write as an empty string, is not modelled.
- Tempfile naming, lifetime and the `Time.now` datestamp depend on the OS and the clock. The two temporary paths are inputs.
- Logger output and the `logger` setters produce no modelled state.
- `Object.const_get` is replaced by the class-name tag, which covers classes only. Two Ruby errors are not modelled:
  - an undefined name raises NameError;
  - a constant that exists but is not a class makes `cls < AmvRendererBase` or `cls < AmvUploaderBase` raise (lines 200 and 223), for example ArgumentError for a String, where the model declines or refuses instead.
- The `@renderer` and `@uploader` instance variables are not modelled, because nothing reads them back.
- The base classes' `render`, `thumbnail`, `put` and `get_url` are not modelled. The strict subclass test rejects the base classes before these could be called.
- Only the `@dst` values nil, false and a file are modelled. Other values that the `attr_accessor` writers could assign are not.
- Failures inside the SDK or the file system, which would raise in Ruby, are not modelled.
- process.rb is not part of this model. It holds the argument-count check and the printing of the URL.
