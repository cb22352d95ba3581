/**
 Temporary files and the external effects a run performs, recorded as a
 trace of abstract events in the order they happen.
 */
module Effects {
  import opened Wrappers

  /** A temporary file produced by a pipeline step, known by its path. */
  datatype Artifact = Artifact(path: string)

  datatype Event =
      /** The transcoder writes `target` from `source`. */
    | Transcode(source: string, target: string)
      /** The faststart pass rewrites `target` in place. */
    | Faststart(target: string)
      /** ffprobe reads the stream metadata of `target`. */
    | Probe(target: string)
      /** ffmpeg grabs one frame of `source` at `mark` seconds, scaled to `dimensions`, into `target`. */
    | Extract(source: string, target: string, dimensions: string, mark: int)
      /** An object is created in `bucket` under `name`, public-read, with the given content type and data. */
    | Put(bucket: string, name: string, contentType: Option<string>, data: Option<Artifact>)
      /** The public URL of the object `key` in `bucket` is asked for. */
    | GetUrl(bucket: string, key: string)

  /** An event that belongs to rendering: a subprocess run on the media. */
  predicate IsRenderEffect(e: Event) {
    e.Transcode? || e.Faststart? || e.Probe? || e.Extract?
  }

  /** The `Put` events of a trace, in order. */
  function Puts(t: seq<Event>): (r: seq<Event>)
    ensures |r| <= |t|
    ensures forall i :: 0 <= i < |r| ==> r[i].Put?
    ensures forall e :: e in r <==> e in t && e.Put?
    decreases |t|
  {
    if |t| == 0 then [] else (if t[0].Put? then [t[0]] else []) + Puts(t[1..])
  }

  /** Taking the `Put` events distributes over concatenation of traces. */
  lemma {:induction false} PutsAppend(a: seq<Event>, b: seq<Event>)
    ensures Puts(a + b) == Puts(a) + Puts(b)
    decreases |a|
  {
    if |a| == 0 {
      assert a + b == b;
    } else {
      assert (a + b)[0] == a[0];
      assert (a + b)[1..] == a[1..] + b;
      PutsAppend(a[1..], b);
    }
  }

  /** No event of the trace is a render effect. */
  predicate NoRenderEffects(t: seq<Event>) {
    forall i :: 0 <= i < |t| ==> !IsRenderEffect(t[i])
  }
}
