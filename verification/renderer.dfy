/**
 Renderers: the `AmvRendererBase` defaults and `MP4Renderer`, which
 transcodes the source, optionally runs a faststart pass, and grabs a
 thumbnail frame from the middle of the rendered file.
 */
module Renderer {
  import opened Wrappers
  import opened RubyCore
  import opened Environment
  import opened Effects

  datatype RendererClass = RendererBase | MP4Renderer

  /** `ready`: false for the base class; for MP4Renderer, whatever `which` on the transcoder returned. */
  function Ready(c: RendererClass, w: World): (ready: RubyBool) {
    match c
    case RendererBase => False
    case MP4Renderer => w.handbrakeOnPath
  }

  /** `type`: the MIME type of what the renderer produces. */
  function MimeType(c: RendererClass): (mime: string) {
    match c
    case RendererBase => "application/octet-string"
    case MP4Renderer => "video/mp4"
  }

  /** The base class is never ready, so even a non-strict subclass test could not let it render. */
  lemma BaseRendererNeverReady(w: World)
    ensures Ready(RendererBase, w) != True
  {
  }

  /** The length assumed when no prober is configured, in seconds. */
  const DefaultLength: real := 30.0

  /** The frame size used when no prober is configured. */
  const DefaultDimensions: string := "320x240"

  /** `"#{width}x#{height}"`: the frame size as ffmpeg's `-s` option reads it. */
  function FormatDimensions(width: nat, height: nat): (text: string) {
    Decimal(width) + "x" + Decimal(height)
  }

  /** Reads a `<width>x<height>` frame size; anything else gives None. */
  function ParseDimensions(s: string): (size: Option<(nat, nat)>) {
    var i := IndexOf(s, 'x');
    if i == |s| then None
    else
      var a := s[..i];
      var b := s[i + 1..];
      if 0 < |a| && 0 < |b| && AllDigits(a) && AllDigits(b)
      then Some((ParseNat(a), ParseNat(b)))
      else None
  }

  /** The frame size text names exactly the probed width and height. */
  lemma DimensionsRoundTrip(width: nat, height: nat)
    ensures ParseDimensions(FormatDimensions(width, height)) == Some((width, height))
  {
    var dw := Decimal(width);
    var dh := Decimal(height);
    var s := dw + "x" + dh;
    assert s[|dw|] == 'x';
    assert forall j :: 0 <= j < |dw| ==> s[j] == dw[j] && IsDigit(dw[j]);
    var i := IndexOf(s, 'x');
    assert i == |dw|;
    assert s[..i] == dw;
    assert s[i + 1..] == dh;
    ParseNatDecimal(width);
    ParseNatDecimal(height);
  }

  /** The default frame size is the one `FormatDimensions` writes for 320 by 240. */
  lemma DefaultDimensionsWellFormed()
    ensures DefaultDimensions == FormatDimensions(320, 240)
    ensures ParseDimensions(DefaultDimensions) == Some((320, 240))
  {
    assert Decimal(320) == "320";
    assert Decimal(240) == "240";
    DimensionsRoundTrip(320, 240);
  }

  /** The seek mark `(length / 2).to_i`: the truncated half of the length. */
  function Mark(length: real): (m: int)
    ensures 0.0 <= length ==> 0 <= m && 2.0 * m as real <= length < 2.0 * m as real + 2.0
    ensures length < 0.0 ==> m <= 0 && 2.0 * m as real - 2.0 < length <= 2.0 * m as real
  {
    TruncateToInt(length / 2.0)
  }

  /** The length and frame size a thumbnail is grabbed with. */
  datatype Frame = Frame(length: real, dimensions: string)

  /** The defaults, replaced by the probed duration and frame size of stream 0 when ffprobe is configured. */
  function Measure(s: Settings, w: World, media: Artifact): (r: (Frame, seq<Event>)) {
    if s.pathToFfprobe.None? then (Frame(DefaultLength, DefaultDimensions), [])
    else (Frame(w.probed.duration, FormatDimensions(w.probed.width, w.probed.height)), [Probe(media.path)])
  }

  /**
   `MP4Renderer#render`: transcode `src` into a fresh temporary file, run the
   faststart pass on it in place when one is configured, and hand back the
   file. The exit statuses are only logged: the file is returned whatever
   they are.
   */
  function Render(s: Settings, w: World, src: string): (r: (Artifact, seq<Event>))
    ensures r.0 == Artifact(w.mediaTempPath)
    ensures 0 < |r.1| && r.1[0] == Transcode(src, w.mediaTempPath)
    ensures Faststart(w.mediaTempPath) in r.1 <==> s.pathToFaststart.Some?
    ensures |r.1| == if s.pathToFaststart.Some? then 2 else 1
    ensures forall i :: 0 <= i < |r.1| ==> r.1[i].Transcode? || r.1[i].Faststart?
  {
    var target := Artifact(w.mediaTempPath);
    var transcode := [Transcode(src, target.path)];
    if s.pathToFaststart.Some? then (target, transcode + [Faststart(target.path)])
    else (target, transcode)
  }

  /** What `render` returns and runs does not depend on the exit status of any tool. */
  lemma RenderIgnoresExitStatus(s: Settings, w: World, w': World, src: string)
    requires SameExceptStatuses(w, w')
    ensures Render(s, w, src) == Render(s, w', src)
    ensures Thumbnail(s, w, Artifact(w.mediaTempPath)) == Thumbnail(s, w', Artifact(w'.mediaTempPath))
  {
  }

  /**
   `MP4Renderer#thumbnail`: probe the rendered file when ffprobe is
   configured, then, only when ffmpeg is configured, grab one frame into a
   fresh temporary file and return it; otherwise nil.
   */
  function Thumbnail(s: Settings, w: World, media: Artifact): (r: (Option<Artifact>, seq<Event>))
    ensures r.0.None? <==> s.pathToFfmpeg.None?
    ensures r.0.Some? ==> r.0.value == Artifact(w.thumbTempPath)
    ensures Probe(media.path) in r.1 <==> s.pathToFfprobe.Some?
    ensures |r.1| == (if s.pathToFfprobe.Some? then 1 else 0) + (if s.pathToFfmpeg.Some? then 1 else 0)
    ensures forall i :: 0 <= i < |r.1| ==> r.1[i].Probe? || r.1[i].Extract?
    ensures forall i :: 0 <= i < |r.1| && r.1[i].Extract? ==>
              i == |r.1| - 1 && s.pathToFfmpeg.Some? &&
              r.1[i].source == media.path && r.1[i].target == w.thumbTempPath
    ensures s.pathToFfmpeg.Some? ==> 0 < |r.1| && r.1[|r.1| - 1].Extract?
  {
    var (frame, probe) := Measure(s, w, media);
    var mark := Mark(frame.length);
    if s.pathToFfmpeg.Some? then
      var target := Artifact(w.thumbTempPath);
      (Some(target), probe + [Extract(media.path, target.path, frame.dimensions, mark)])
    else
      (None, probe)
  }

  /** Without a prober the frame is grabbed at 15 seconds (half of 30) at 320x240. */
  lemma ThumbnailDefaults(s: Settings, w: World, media: Artifact)
    requires s.pathToFfprobe.None? && s.pathToFfmpeg.Some?
    ensures Thumbnail(s, w, media) ==
              (Some(Artifact(w.thumbTempPath)), [Extract(media.path, w.thumbTempPath, "320x240", 15)])
  {
    var m := Mark(DefaultLength);
    assert 2.0 * m as real <= 30.0 < 2.0 * m as real + 2.0;
    assert [] + [Extract(media.path, w.thumbTempPath, DefaultDimensions, m)] ==
           [Extract(media.path, w.thumbTempPath, "320x240", 15)];
  }

  /**
   With a prober the frame is grabbed at the truncated half of the probed
   duration, at the probed width and height of stream 0.
   */
  lemma ThumbnailProbed(s: Settings, w: World, media: Artifact)
    requires s.pathToFfprobe.Some? && s.pathToFfmpeg.Some?
    ensures var t := Thumbnail(s, w, media).1;
      && |t| == 2 && t[0] == Probe(media.path) && t[1].Extract?
      && ParseDimensions(t[1].dimensions) == Some((w.probed.width, w.probed.height))
      && (0.0 <= w.probed.duration ==>
            2.0 * t[1].mark as real <= w.probed.duration < 2.0 * t[1].mark as real + 2.0)
  {
    DimensionsRoundTrip(w.probed.width, w.probed.height);
  }

  /** The worked example: a 42-second 640x360 render is grabbed at 21 seconds at 640x360. */
  lemma ThumbnailOfFortyTwoSeconds(s: Settings, w: World)
    requires s.pathToFfprobe.Some? && s.pathToFfmpeg.Some?
    requires w.probed == ProbeData(42.0, 640, 360)
    ensures Thumbnail(s, w, Artifact(w.mediaTempPath)).1[1] ==
              Extract(w.mediaTempPath, w.thumbTempPath, "640x360", 21)
  {
    assert Decimal(640) == "640";
    assert Decimal(360) == "360";
    assert Mark(42.0) == 21;
  }
}
