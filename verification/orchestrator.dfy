/**
 `AmvUploader`, the container that drives one run: render the source with
 the named renderer, then upload the result and its thumbnail with the
 named uploader. Each operation returns its value, the container's new
 state, and the trace of external events it caused.
 */
module Orchestrator {
  import opened Wrappers
  import opened RubyCore
  import opened Environment
  import opened Effects
  import R = Renderer
  import U = Uploader

  /** The class a name resolves to: a renderer, an uploader, or any other class. */
  datatype ClassName =
    | RendererClassName(renderer: R.RendererClass)
    | UploaderClassName(uploader: U.UploaderClass)
    | OtherClassName

  /** `cls < AmvRendererBase`: a proper subclass, so the base class itself fails. */
  predicate IsRendererSubclass(cls: ClassName) {
    cls.RendererClassName? && cls.renderer != R.RendererBase
  }

  /** `cls < AmvUploaderBase`: a proper subclass, so the base class itself fails. */
  predicate IsUploaderSubclass(cls: ClassName) {
    cls.UploaderClassName? && cls.uploader != U.UploaderBase
  }

  /** The value of `@dst`: nil until assigned, false after a failed render, or the rendered file. */
  datatype Dst = Unset | Rejected | Output(artifact: Artifact)

  /** What `render` returns: false, or the rendered file. */
  datatype RenderReply = Declined | Rendered(artifact: Artifact)

  /** What `upload` and `process` return: false, the media URL, or the NoMethodError raised on a nil `@dst`. */
  datatype UploadReply = Refused | Delivered(url: U.PublicUrl) | Raised

  /** The instance variables of an `AmvUploader`; `errors` is never written after construction. */
  datatype State = State(
    src: string,
    dst: Dst,
    remote: Option<UploadReply>,
    thumbnail: Option<Artifact>,
    mimeType: Option<string>,
    errors: seq<string>)

  /** An operation's value, the state after it, and the events it caused. */
  datatype Step<T> = Step(value: T, state: State, trace: seq<Event>)

  /** `AmvUploader.new(src: src)`: nothing rendered, nothing uploaded, no errors. */
  function Init(src: string): (s: State)
    ensures s.src == src && s.dst.Unset? && s.remote.None?
    ensures s.thumbnail.None? && s.mimeType.None? && s.errors == []
  {
    State(src, Unset, None, None, None, [])
  }

  /** `errors`: the error list. */
  function Errors(s: State): (errors: seq<string>) {
    s.errors
  }

  /**
   `render(className)`: reject a class that is not a proper renderer
   subclass, or whose `ready` is not exactly true; otherwise record the
   renderer's MIME type, render, make the thumbnail, and return the file.
   `@dst` is not assigned here.
   */
  function Render(s: State, settings: Settings, w: World, cls: ClassName): (r: Step<RenderReply>)
    ensures r.value.Declined? <==> !IsRendererSubclass(cls) || R.Ready(cls.renderer, w) != True
    ensures r.value.Declined? ==> r.state == s && r.trace == []
    ensures r.value.Rendered? ==>
              && r.value.artifact == Artifact(w.mediaTempPath)
              && r.state == s.(mimeType := Some("video/mp4"), thumbnail := r.state.thumbnail)
              && (r.state.thumbnail.Some? <==> settings.pathToFfmpeg.Some?)
              && r.state.thumbnail == R.Thumbnail(settings, w, r.value.artifact).0
              && r.trace == R.Render(settings, w, s.src).1 + R.Thumbnail(settings, w, r.value.artifact).1
              && 0 < |r.trace| && r.trace[0] == Transcode(s.src, w.mediaTempPath)
    ensures forall i :: 0 <= i < |r.trace| ==> IsRenderEffect(r.trace[i])
  {
    if !IsRendererSubclass(cls) || R.Ready(cls.renderer, w) != True then
      Step(Declined, s, [])
    else
      match cls.renderer
      case MP4Renderer =>
        var (output, rendering) := R.Render(settings, w, s.src);
        var (thumbnail, thumbnailing) := R.Thumbnail(settings, w, output);
        Step(Rendered(output),
             s.(mimeType := Some(R.MimeType(R.MP4Renderer)), thumbnail := thumbnail),
             rendering + thumbnailing)
  }

  /**
   `upload(className, params)`: give up when `@dst` is false, when the class
   is not a proper uploader subclass, or when `ready` is not exactly true.
   Otherwise put the media under its own name and the renderer's MIME type,
   then, only when there is a thumbnail, put it as `<key>.jpg` with type
   `image/jpeg`, and return the media's URL.
   */
  function Upload(s: State, cls: ClassName, params: U.AwsParams): (r: Step<UploadReply>)
    ensures r.state == s
    ensures r.value.Refused? <==>
              s.dst.Rejected? || !IsUploaderSubclass(cls) || U.Ready(cls.uploader) != True
    ensures r.value.Raised? <==> !r.value.Refused? && s.dst.Unset?
    ensures !r.value.Delivered? ==> r.trace == []
    ensures forall i :: 0 <= i < |r.trace| ==> r.trace[i].Put? || r.trace[i].GetUrl?
    ensures r.value.Delivered? ==>
              && s.dst.Output?
              && r.value.url == U.PublicUrl(params.bucket, Basename(s.dst.artifact.path))
  {
    if s.dst.Rejected? then Step(Refused, s, [])
    else if !IsUploaderSubclass(cls) || U.Ready(cls.uploader) != True then Step(Refused, s, [])
    else
      var media := if s.dst.Output? then Some(s.dst.artifact) else None;
      match U.Put(params, media, s.mimeType, None)
      case NoMethodError => Step(Raised, s, [])
      case Stored(obj, putMedia) =>
        var (videoUrl, askMedia) := U.GetUrl(obj);
        if s.thumbnail.None? then Step(Delivered(videoUrl), s, putMedia + askMedia)
        else
          match U.Put(params, s.thumbnail, Some("image/jpeg"), Some(obj.key + ".jpg"))
          case Stored(thumbObj, putThumb) =>
            var (_, askThumb) := U.GetUrl(thumbObj);
            Step(Delivered(videoUrl), s, putMedia + askMedia + putThumb + askThumb)
  }

  /**
   `process(renderClass, uploadClass, uploadParams)`: render, store the
   result in `@dst`, and upload only when the render did not return false,
   storing the upload's answer in `@remote` (an exception would leave it
   unassigned).
   */
  function Process(s: State, settings: Settings, w: World, renderCls: ClassName,
                   uploadCls: ClassName, params: U.AwsParams): (r: Step<UploadReply>)
    ensures !r.value.Raised?
    ensures r.state.dst.Rejected? <==> !IsRendererSubclass(renderCls) || R.Ready(renderCls.renderer, w) != True
    ensures r.state.dst.Rejected? ==> r.value.Refused? && Puts(r.trace) == [] && r.state == s.(dst := Rejected)
    ensures r.value.Delivered? <==>
              && IsRendererSubclass(renderCls) && R.Ready(renderCls.renderer, w) == True
              && IsUploaderSubclass(uploadCls) && U.Ready(uploadCls.uploader) == True
    ensures !r.state.dst.Rejected? ==>
              r.state.dst == Output(Artifact(w.mediaTempPath)) && r.state.remote == Some(r.value)
    ensures r.state.src == s.src && r.state.errors == s.errors
  {
    var rendered := Render(s, settings, w, renderCls);
    var dst := if rendered.value.Declined? then Rejected else Output(rendered.value.artifact);
    var s1 := rendered.state.(dst := dst);
    if dst != Rejected then
      var uploaded := Upload(s1, uploadCls, params);
      var s2 := if uploaded.value.Raised? then s1 else s1.(remote := Some(uploaded.value));
      Step(uploaded.value, s2, rendered.trace + uploaded.trace)
    else
      Step(Refused, s1, rendered.trace)
  }
}
