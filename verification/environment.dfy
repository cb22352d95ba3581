/**
 The read-only configuration and the answers of the outside world for one
 run. The source reads tool paths from the process-wide `$Settings` hash;
 every subprocess, temporary file and probe result it sees is an input here.
 */
module Environment {
  import opened Wrappers
  import opened RubyCore

  /** The `$Settings` entries the core reads; an unset (nil) tool path is None. */
  datatype Settings = Settings(
    pathToHandbrake: string,
    pathToFaststart: Option<string>,
    pathToFfprobe: Option<string>,
    pathToFfmpeg: Option<string>)

  /**
   What ffprobe reports for stream 0 of the rendered file: the duration
   after `to_f`, taken as an exact real, and the width and height.
   */
  datatype ProbeData = ProbeData(duration: real, width: nat, height: nat)

  /**
   The outside world as one run sees it: the result of `which` on the
   transcoder, the values `system` returns for each external tool, the
   probe output, and the paths of the temporary files created for the
   rendered media and for the thumbnail.
   */
  datatype World = World(
    handbrakeOnPath: RubyBool,
    transcodeStatus: RubyBool,
    faststartStatus: RubyBool,
    extractStatus: RubyBool,
    probed: ProbeData,
    mediaTempPath: string,
    thumbTempPath: string)

  /** Two worlds that differ at most in the exit statuses of the tools the renderer runs. */
  predicate SameExceptStatuses(w: World, w': World) {
    w.(transcodeStatus := w'.transcodeStatus, faststartStatus := w'.faststartStatus,
       extractStatus := w'.extractStatus) == w'
  }
}
