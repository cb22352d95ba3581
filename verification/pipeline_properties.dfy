/**
 Properties of whole runs of the `AmvUploader` pipeline: which effects
 happen, in what order, under what names, and what is returned.
 */
module PipelineProperties {
  import opened Wrappers
  import opened RubyCore
  import opened Environment
  import opened Effects
  import opened Orchestrator
  import R = Renderer
  import U = Uploader

  /** The `Put` event that stores `a` under its own name with the given content type. */
  function MediaPut(params: U.AwsParams, a: Artifact, contentType: Option<string>): (e: Event) {
    Put(params.bucket, Basename(a.path), contentType, Some(a))
  }

  /** The `Put` event that stores thumbnail `t` as `<mediaKey>.jpg`, always as a JPEG. */
  function ThumbnailPut(params: U.AwsParams, mediaKey: string, t: Artifact): (e: Event) {
    Put(params.bucket, mediaKey + ".jpg", Some("image/jpeg"), Some(t))
  }

  /**
   A successful upload puts the media first, under its basename and the
   recorded MIME type, and then the thumbnail as `<key>.jpg` exactly when
   there is one; there is no other `Put`. The URL returned is the media's,
   never the thumbnail's.
   */
  lemma UploadPuts(s: State, cls: ClassName, params: U.AwsParams)
    requires s.dst.Output? && IsUploaderSubclass(cls)
    ensures var r := Upload(s, cls, params);
      && r.value.Delivered?
      && Puts(r.trace) ==
           [MediaPut(params, s.dst.artifact, s.mimeType)] +
           (if s.thumbnail.Some?
            then [ThumbnailPut(params, Basename(s.dst.artifact.path), s.thumbnail.value)]
            else [])
      && r.value.url.key == Puts(r.trace)[0].name
      && forall i :: 0 < i < |Puts(r.trace)| ==> r.value.url.key != Puts(r.trace)[i].name
  {
    var r := Upload(s, cls, params);
    var a := s.dst.artifact;
    var key := Basename(a.path);
    var putMedia := [MediaPut(params, a, s.mimeType)];
    var askMedia := [GetUrl(params.bucket, key)];
    assert Puts(askMedia) == [];
    PutsAppend(putMedia, askMedia);
    if s.thumbnail.Some? {
      var putThumb := [ThumbnailPut(params, key, s.thumbnail.value)];
      var askThumb := [GetUrl(params.bucket, key + ".jpg")];
      assert r.trace == putMedia + askMedia + putThumb + askThumb;
      assert Puts(askThumb) == [];
      PutsAppend(putMedia + askMedia, putThumb);
      PutsAppend(putMedia + askMedia + putThumb, askThumb);
      assert |key + ".jpg"| != |key|;
    } else {
      assert r.trace == putMedia + askMedia;
    }
  }

  /** An unset `@dst` passes the upload guard: the put evaluates `nil.path` and raises before any object is stored. */
  lemma UploadWithUnsetDst(s: State, params: U.AwsParams)
    requires s.dst.Unset?
    ensures Upload(s, UploaderClassName(U.AwsUploader), params).value == Raised
    ensures Upload(s, UploaderClassName(U.AwsUploader), params).trace == []
  {
  }

  /**
   Calling `render` and then `upload` directly, when the render failed,
   does not make `upload` return false: `render` never assigns `@dst`, so
   it stays nil and the upload raises. Nothing is stored either way.
   */
  lemma DirectUploadAfterFailedRender(src: string, settings: Settings, w: World,
                                      renderCls: ClassName, params: U.AwsParams)
    requires Render(Init(src), settings, w, renderCls).value.Declined?
    ensures var s := Render(Init(src), settings, w, renderCls).state;
      && Upload(s, UploaderClassName(U.AwsUploader), params).value == Raised
      && Puts(Upload(s, UploaderClassName(U.AwsUploader), params).trace) == []
  {
  }

  /** Every render effect of a trace comes before every other event. */
  predicate RenderEffectsFirst(t: seq<Event>) {
    exists k :: 0 <= k <= |t| && NoRenderEffects(t[k..]) &&
      forall i :: 0 <= i < k ==> IsRenderEffect(t[i])
  }

  /**
   After a successful render, `process` is that render followed by `upload`
   on the render's state with `@dst` holding the file; that is the state
   `process` leaves, before `@remote` is assigned.
   */
  lemma ProcessIsRenderThenUpload(s: State, settings: Settings, w: World, renderCls: ClassName,
                                  uploadCls: ClassName, params: U.AwsParams)
    requires Render(s, settings, w, renderCls).value.Rendered?
    ensures var rendered := Render(s, settings, w, renderCls);
      var r := Process(s, settings, w, renderCls, uploadCls, params);
      var seen := r.state.(remote := s.remote);
      && seen == rendered.state.(dst := Output(rendered.value.artifact))
      && r.value == Upload(seen, uploadCls, params).value
      && r.trace == rendered.trace + Upload(seen, uploadCls, params).trace
  {
  }

  /** A run with MP4Renderer ready and AwsUploader returns the URL of the rendered file, stored under its own name. */
  lemma ProcessReturnsMediaUrl(s: State, settings: Settings, w: World, params: U.AwsParams)
    requires w.handbrakeOnPath == True
    ensures Process(s, settings, w, RendererClassName(R.MP4Renderer), UploaderClassName(U.AwsUploader), params).value
            == Delivered(U.PublicUrl(params.bucket, Basename(w.mediaTempPath)))
  {
    ProcessIsRenderThenUpload(s, settings, w, RendererClassName(R.MP4Renderer),
                              UploaderClassName(U.AwsUploader), params);
  }

  /**
   A run with MP4Renderer ready and AwsUploader stores the rendered file
   under its own name as `video/mp4`, then the thumbnail as `<name>.jpg`
   exactly when ffmpeg is configured, and nothing else.
   */
  lemma ProcessPuts(s: State, settings: Settings, w: World, params: U.AwsParams)
    requires w.handbrakeOnPath == True
    ensures Puts(Process(s, settings, w, RendererClassName(R.MP4Renderer),
                         UploaderClassName(U.AwsUploader), params).trace) ==
              [MediaPut(params, Artifact(w.mediaTempPath), Some("video/mp4"))] +
              (if settings.pathToFfmpeg.Some?
               then [ThumbnailPut(params, Basename(w.mediaTempPath), Artifact(w.thumbTempPath))]
               else [])
  {
    var renderCls := RendererClassName(R.MP4Renderer);
    var uploadCls := UploaderClassName(U.AwsUploader);
    var rendered := Render(s, settings, w, renderCls);
    var seen := Process(s, settings, w, renderCls, uploadCls, params).state.(remote := s.remote);
    ProcessIsRenderThenUpload(s, settings, w, renderCls, uploadCls, params);
    UploadPuts(seen, uploadCls, params);
    NoPutsInRenderEffects(rendered.trace);
    PutsAppend(rendered.trace, Upload(seen, uploadCls, params).trace);
  }

  /**
   A run with MP4Renderer ready and ffmpeg configured grabs one frame of the
   rendered file into the thumbnail file: at 15 seconds and 320x240 without
   ffprobe, and at the probed size and the truncated half of the probed
   duration with it.
   */
  lemma ProcessGrabsFrame(s: State, settings: Settings, w: World, uploadCls: ClassName,
                          params: U.AwsParams)
    requires w.handbrakeOnPath == True && settings.pathToFfmpeg.Some?
    ensures var t := Process(s, settings, w, RendererClassName(R.MP4Renderer), uploadCls, params).trace;
      && (settings.pathToFfprobe.None? ==>
            Extract(w.mediaTempPath, w.thumbTempPath, "320x240", 15) in t)
      && (settings.pathToFfprobe.Some? ==>
            exists e :: e in t && e.Extract? && e.source == w.mediaTempPath && e.target == w.thumbTempPath
              && R.ParseDimensions(e.dimensions) == Some((w.probed.width, w.probed.height))
              && e.mark == R.Mark(w.probed.duration))
  {
    var renderCls := RendererClassName(R.MP4Renderer);
    var media := Artifact(w.mediaTempPath);
    var rendered := Render(s, settings, w, renderCls);
    var seen := Process(s, settings, w, renderCls, uploadCls, params).state.(remote := s.remote);
    ProcessIsRenderThenUpload(s, settings, w, renderCls, uploadCls, params);
    var thumbnailing := R.Thumbnail(settings, w, media).1;
    var t := rendered.trace + Upload(seen, uploadCls, params).trace;
    assert rendered.trace == R.Render(settings, w, s.src).1 + thumbnailing;
    var e := thumbnailing[|thumbnailing| - 1];
    assert e in rendered.trace;
    assert e in t;
    if settings.pathToFfprobe.None? {
      R.ThumbnailDefaults(settings, w, media);
    } else {
      R.ThumbnailProbed(settings, w, media);
    }
  }

  /** In every run that renders, the transcoder runs first and every subprocess finishes before the first upload event. */
  lemma ProcessRendersBeforeUploading(s: State, settings: Settings, w: World, renderCls: ClassName,
                                      uploadCls: ClassName, params: U.AwsParams)
    ensures var r := Process(s, settings, w, renderCls, uploadCls, params);
      && RenderEffectsFirst(r.trace)
      && (Render(s, settings, w, renderCls).value.Rendered? ==> r.trace[0] == Transcode(s.src, w.mediaTempPath))
  {
    var rendered := Render(s, settings, w, renderCls);
    if rendered.value.Rendered? {
      var seen := Process(s, settings, w, renderCls, uploadCls, params).state.(remote := s.remote);
      ProcessIsRenderThenUpload(s, settings, w, renderCls, uploadCls, params);
      RenderThenUpload(rendered.trace, Upload(seen, uploadCls, params).trace);
    } else {
      RenderThenUpload(rendered.trace, []);
      assert rendered.trace + [] == rendered.trace;
    }
  }

  /** Render effects followed by events of another kind put the render effects first. */
  lemma RenderThenUpload(a: seq<Event>, b: seq<Event>)
    requires forall i :: 0 <= i < |a| ==> IsRenderEffect(a[i])
    requires NoRenderEffects(b)
    ensures RenderEffectsFirst(a + b)
  {
    var t := a + b;
    assert t[|a|..] == b;
    assert forall i :: 0 <= i < |a| ==> t[i] == a[i];
  }

  /** A trace made only of render effects holds no `Put`. */
  lemma {:induction false} NoPutsInRenderEffects(t: seq<Event>)
    requires forall i :: 0 <= i < |t| ==> IsRenderEffect(t[i])
    ensures Puts(t) == []
    decreases |t|
  {
    if |t| > 0 {
      NoPutsInRenderEffects(t[1..]);
    }
  }

  /** The calls a client can make on one `AmvUploader`, each in the world it runs in. */
  datatype Call =
    | CallRender(world: World, renderCls: ClassName)
    | CallUpload(uploadCls: ClassName, params: U.AwsParams)
    | CallProcess(world: World, renderCls: ClassName, uploadCls: ClassName, params: U.AwsParams)

  /** The state after a sequence of calls. */
  function Run(s: State, settings: Settings, calls: seq<Call>): (last: State)
    decreases |calls|
  {
    if |calls| == 0 then s
    else
      var next := match calls[0]
        case CallRender(w, rc) => Render(s, settings, w, rc).state
        case CallUpload(uc, p) => Upload(s, uc, p).state
        case CallProcess(w, rc, uc, p) => Process(s, settings, w, rc, uc, p).state;
      Run(next, settings, calls[1..])
  }

  /** No sequence of calls ever writes to the error list: `errors` stays empty. */
  lemma {:induction false} ErrorsStayEmpty(src: string, settings: Settings, calls: seq<Call>)
    ensures Errors(Run(Init(src), settings, calls)) == []
  {
    ErrorsPreserved(Init(src), settings, calls);
  }

  lemma {:induction false} ErrorsPreserved(s: State, settings: Settings, calls: seq<Call>)
    ensures Run(s, settings, calls).errors == s.errors
    decreases |calls|
  {
    if |calls| > 0 {
      var next := match calls[0]
        case CallRender(w, rc) => Render(s, settings, w, rc).state
        case CallUpload(uc, p) => Upload(s, uc, p).state
        case CallProcess(w, rc, uc, p) => Process(s, settings, w, rc, uc, p).state;
      ErrorsPreserved(next, settings, calls[1..]);
    }
  }
}
