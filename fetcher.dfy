/**
 The three download routines: download_media (one HTTP GET for a static file),
 download_reddit_video (yt-dlp, with an ffmpeg segment-stitching fallback) and
 download_video (the wrapper that reports the result and writes the caption).

 Every call into the outside world is an outcome given as a parameter: the HTTP reply,
 how each subprocess ended, and whether yt-dlp's output file exists afterwards. Each
 routine yields the trace of effects it causes, in order.
 */
module Fetcher {
  import opened Wrappers

  /** A post as the listing hands it over (only the fields the downloads read). */
  datatype Submission = Submission(id: string, url: string, isVideo: bool, title: string, selftext: string)

  /** The external commands the routines run. */
  datatype Command =
    | YtDlp(url: string, output: string)                  // best video+audio, merged into mp4
    | FfmpegCopy(input: string, output: string)           // stream copy of one segment
    | FfmpegMux(video: string, audio: string, output: string)  // video of the first, audio of the second

  /** The effects on the outside world, in the order a trace lists them. */
  datatype Effect =
    | HttpGet(url: string)
    | WriteFile(path: string, content: seq<bv8>)
    | RunCommand(command: Command)
    | RemoveFile(path: string)
    | WriteCaption(mediaPath: string, text: string)    // save_caption for the media file at mediaPath

  /** How a `subprocess.run(..., check=True)` call ends. */
  datatype ProcessEnd = Exited0 | CalledProcessError | OtherException

  /** What `requests.get` gives back: a response, or an exception. */
  datatype HttpReply = Response(status: int, content: seq<bv8>) | RequestException

  /** The outcomes the world gives one call of download_reddit_video. */
  datatype VideoWorld = VideoWorld(
    ytDlp: ProcessEnd,
    outputExists: bool,
    videoSegment: ProcessEnd,
    audioSegment: ProcessEnd,
    mux: ProcessEnd)

  /** How download_reddit_video ends: it returns True, False or None, or an exception escapes it. */
  datatype Returned = ReturnedTrue | ReturnedFalse | ReturnedNone | Escaped

  datatype VideoRun = VideoRun(result: Returned, effects: seq<Effect>)

  /** A routine that returns nothing: its effects, and whether an exception escaped it. */
  datatype Run = Run(effects: seq<Effect>, escaped: bool)

  // ---------------------------------------------------------------------------
  // Captions
  // ---------------------------------------------------------------------------

  /** The caption text save_caption writes: the title, then a blank line and the body when there is one. */
  function CaptionText(title: string, selftext: string): (text: string)
    ensures |title| <= |text| && text[..|title|] == title
    ensures selftext == [] <==> text == title
    ensures selftext != [] ==> text[|title|..] == "\n\n" + selftext
  {
    if selftext != [] then title + "\n\n" + selftext else title
  }

  /** save_caption for one post and one downloaded file. */
  function SaveCaption(s: Submission, filename: string): Effect {
    WriteCaption(filename, CaptionText(s.title, s.selftext))
  }

  /** The caption effect for a downloaded file, when the routine was given a submission. */
  function CaptionEffects(submission: Option<Submission>, mediaPath: string): seq<Effect> {
    match submission
    case None => []
    case Some(s) => [SaveCaption(s, mediaPath)]
  }

  // ---------------------------------------------------------------------------
  // download_reddit_video
  // ---------------------------------------------------------------------------

  function VideoSegmentUrl(url: string): string { url + "/DASH_1080.mp4" }
  function AudioSegmentUrl(url: string): string { url + "/DASH_audio.mp4" }
  function TempVideoFile(output: string): string { output + "_temp_video.mp4" }
  function TempAudioFile(output: string): string { output + "_temp_audio.mp4" }

  function FetchVideoSegment(url: string, output: string): Effect {
    RunCommand(FfmpegCopy(VideoSegmentUrl(url), TempVideoFile(output)))
  }

  function FetchAudioSegment(url: string, output: string): Effect {
    RunCommand(FfmpegCopy(AudioSegmentUrl(url), TempAudioFile(output)))
  }

  function MuxSegments(output: string): Effect {
    RunCommand(FfmpegMux(TempVideoFile(output), TempAudioFile(output), output))
  }

  /** How the fallback ends when one of its commands does not exit with 0. */
  function FallbackAbort(end: ProcessEnd): Returned {
    if end == CalledProcessError then ReturnedFalse else Escaped
  }

  /**
   The fallback after yt-dlp raised CalledProcessError: fetch the video segment, fetch
   the audio segment, mux them into the output, then remove both segments. The first
   command that fails ends it: CalledProcessError is caught and gives False, any other
   exception escapes.
   */
  function FallbackSteps(url: string, output: string, w: VideoWorld): VideoRun {
    var fetchVideo := FetchVideoSegment(url, output);
    var fetchAudio := FetchAudioSegment(url, output);
    var mux := MuxSegments(output);
    if w.videoSegment != Exited0 then
      VideoRun(FallbackAbort(w.videoSegment), [fetchVideo])
    else if w.audioSegment != Exited0 then
      VideoRun(FallbackAbort(w.audioSegment), [fetchVideo, fetchAudio])
    else if w.mux != Exited0 then
      VideoRun(FallbackAbort(w.mux), [fetchVideo, fetchAudio, mux])
    else
      VideoRun(ReturnedTrue, [fetchVideo, fetchAudio, mux,
                              RemoveFile(TempVideoFile(output)), RemoveFile(TempAudioFile(output))])
  }

  /**
   The state machine of download_reddit_video: yt-dlp first; success with the output
   present returns True, success without it falls through to None; CalledProcessError
   enters the fallback; any other exception returns False.
   */
  function RedditVideoSteps(url: string, output: string, w: VideoWorld): VideoRun {
    var primary := RunCommand(YtDlp(url, output));
    match w.ytDlp
    case Exited0 => VideoRun(if w.outputExists then ReturnedTrue else ReturnedNone, [primary])
    case OtherException => VideoRun(ReturnedFalse, [primary])
    case CalledProcessError =>
      var fallback := FallbackSteps(url, output, w);
      VideoRun(fallback.result, [primary] + fallback.effects)
  }

  /** download_reddit_video, step by step as the script runs it. */
  method DownloadRedditVideo(url: string, output: string, w: VideoWorld) returns (result: Returned, effects: seq<Effect>)
    ensures VideoRun(result, effects) == RedditVideoSteps(url, output, w)
  {
    effects := [RunCommand(YtDlp(url, output))];
    if w.ytDlp == Exited0 {
      if w.outputExists {
        return ReturnedTrue, effects;
      }
      return ReturnedNone, effects;
    } else if w.ytDlp == OtherException {
      return ReturnedFalse, effects;
    }
    // except CalledProcessError: the ffmpeg fallback
    var videoUrl := url + "/DASH_1080.mp4";
    var audioUrl := url + "/DASH_audio.mp4";
    var videoFile := output + "_temp_video.mp4";
    var audioFile := output + "_temp_audio.mp4";
    effects := effects + [RunCommand(FfmpegCopy(videoUrl, videoFile))];
    if w.videoSegment != Exited0 {
      return FallbackAbort(w.videoSegment), effects;
    }
    effects := effects + [RunCommand(FfmpegCopy(audioUrl, audioFile))];
    if w.audioSegment != Exited0 {
      return FallbackAbort(w.audioSegment), effects;
    }
    effects := effects + [RunCommand(FfmpegMux(videoFile, audioFile, output))];
    if w.mux != Exited0 {
      return FallbackAbort(w.mux), effects;
    }
    effects := effects + [RemoveFile(videoFile), RemoveFile(audioFile)];
    result := ReturnedTrue;
  }

  // ---------------------------------------------------------------------------
  // Properties of the state machine
  // ---------------------------------------------------------------------------

  /** The first thing download_reddit_video does is run yt-dlp on the URL into the output file. */
  lemma PrimaryFirst(url: string, output: string, w: VideoWorld)
    ensures var r := RedditVideoSteps(url, output, w);
            |r.effects| >= 1 && r.effects[0] == RunCommand(YtDlp(url, output))
  {
  }

  /** The fallback runs (some ffmpeg command is issued) exactly when yt-dlp raised CalledProcessError. */
  lemma FallbackOnlyAfterCalledProcessError(url: string, output: string, w: VideoWorld)
    ensures var r := RedditVideoSteps(url, output, w);
            (|r.effects| > 1) <==> w.ytDlp == CalledProcessError
  {
  }

  /**
   In the fallback the commands come in a fixed order: the video segment from
   `url + "/DASH_1080.mp4"` into `output + "_temp_video.mp4"`, then the audio segment
   from `url + "/DASH_audio.mp4"` into `output + "_temp_audio.mp4"`, then the mux
   into the output; each runs only if the one before it exited with 0.
   */
  lemma FallbackOrder(url: string, output: string, w: VideoWorld)
    requires w.ytDlp == CalledProcessError
    ensures var e := RedditVideoSteps(url, output, w).effects;
            && |e| >= 2
            && e[1] == RunCommand(FfmpegCopy(url + "/DASH_1080.mp4", output + "_temp_video.mp4"))
            && (|e| >= 3 <==> w.videoSegment == Exited0)
            && (|e| >= 3 ==> e[2] == RunCommand(FfmpegCopy(url + "/DASH_audio.mp4", output + "_temp_audio.mp4")))
            && (|e| >= 4 <==> w.videoSegment == Exited0 && w.audioSegment == Exited0)
            && (|e| >= 4 ==> e[3] == RunCommand(FfmpegMux(output + "_temp_video.mp4", output + "_temp_audio.mp4", output)))
  {
  }

  /**
   download_reddit_video returns True exactly when yt-dlp succeeded and left the output
   file, or when yt-dlp raised CalledProcessError and all three ffmpeg commands succeeded.
   */
  lemma TrueExactlyOnSuccess(url: string, output: string, w: VideoWorld)
    ensures RedditVideoSteps(url, output, w).result == ReturnedTrue <==>
              || (w.ytDlp == Exited0 && w.outputExists)
              || (w.ytDlp == CalledProcessError && w.videoSegment == Exited0
                  && w.audioSegment == Exited0 && w.mux == Exited0)
  {
  }

  /**
   The non-fallback ends: yt-dlp exiting 0 without an output file returns None with no
   fallback, and any exception other than CalledProcessError returns False with no fallback.
   */
  lemma PrimaryWithoutFallback(url: string, output: string, w: VideoWorld)
    ensures w.ytDlp == Exited0 && !w.outputExists ==>
              RedditVideoSteps(url, output, w) == VideoRun(ReturnedNone, [RunCommand(YtDlp(url, output))])
    ensures w.ytDlp == OtherException ==>
              RedditVideoSteps(url, output, w) == VideoRun(ReturnedFalse, [RunCommand(YtDlp(url, output))])
    ensures RedditVideoSteps(url, output, w).result == ReturnedNone <==> w.ytDlp == Exited0 && !w.outputExists
  {
  }

  /**
   The fallback ends in False exactly when its first failing command raised
   CalledProcessError, and lets an exception escape exactly when that command raised
   anything else.
   */
  lemma FallbackFailures(url: string, output: string, w: VideoWorld)
    requires w.ytDlp == CalledProcessError
    ensures var first := if w.videoSegment != Exited0 then w.videoSegment
                         else if w.audioSegment != Exited0 then w.audioSegment
                         else w.mux;
            && (RedditVideoSteps(url, output, w).result == ReturnedFalse <==> first == CalledProcessError)
            && (RedditVideoSteps(url, output, w).result == Escaped <==> first == OtherException)
  {
  }

  /**
   The temporary segment files are removed, video then audio and after the mux, exactly
   when the fallback succeeds; a failed fallback removes nothing and leaves them behind.
   */
  lemma CleanupExactlyOnFallbackSuccess(url: string, output: string, w: VideoWorld)
    ensures var r := RedditVideoSteps(url, output, w);
            (exists p :: RemoveFile(p) in r.effects) <==>
              w.ytDlp == CalledProcessError && r.result == ReturnedTrue
    ensures var r := RedditVideoSteps(url, output, w);
            w.ytDlp == CalledProcessError && r.result == ReturnedTrue ==>
              && |r.effects| == 6
              && r.effects[3] == RunCommand(FfmpegMux(output + "_temp_video.mp4", output + "_temp_audio.mp4", output))
              && r.effects[4] == RemoveFile(output + "_temp_video.mp4")
              && r.effects[5] == RemoveFile(output + "_temp_audio.mp4")
  {
    var r := RedditVideoSteps(url, output, w);
    if w.ytDlp == CalledProcessError && r.result == ReturnedTrue {
      assert RemoveFile(TempVideoFile(output)) in r.effects;
    }
  }

  // ---------------------------------------------------------------------------
  // download_media and download_video
  // ---------------------------------------------------------------------------

  /**
   download_media: one GET; status 200 writes the body verbatim to the path and then
   the caption; any other status writes nothing; an exception from the request escapes.
   */
  function MediaSteps(url: string, path: string, submission: Option<Submission>, reply: HttpReply): Run {
    match reply
    case RequestException => Run([HttpGet(url)], true)
    case Response(status, content) =>
      if status == 200 then Run([HttpGet(url), WriteFile(path, content)] + CaptionEffects(submission, path), false)
      else Run([HttpGet(url)], false)
  }

  /** download_media as the script runs it. */
  method DownloadMedia(url: string, path: string, submission: Option<Submission>, reply: HttpReply)
    returns (effects: seq<Effect>, escaped: bool)
    ensures Run(effects, escaped) == MediaSteps(url, path, submission, reply)
  {
    effects := [HttpGet(url)];
    if reply.RequestException? {
      return effects, true;
    }
    if reply.status == 200 {
      effects := effects + [WriteFile(path, reply.content)];
      if submission.Some? {
        effects := effects + [SaveCaption(submission.value, path)];
      }
    }
    escaped := false;
  }

  /** A static download writes a file exactly on status 200, and then exactly the response body at the given path. */
  lemma MediaWritesOnlyOn200(url: string, path: string, submission: Option<Submission>, reply: HttpReply,
                             p: string, content: seq<bv8>)
    ensures WriteFile(p, content) in MediaSteps(url, path, submission, reply).effects <==>
              reply == Response(200, content) && p == path
  {
    var r := MediaSteps(url, path, submission, reply);
    if reply.Response? && reply.status == 200 {
      assert r.effects[1] == WriteFile(path, reply.content);
    }
  }

  /**
   download_video: run download_reddit_video; a true result writes the caption, a false
   or None result only reports the failure; an escaping exception propagates.
   */
  function VideoSteps(url: string, output: string, submission: Option<Submission>, w: VideoWorld): Run {
    var r := RedditVideoSteps(url, output, w);
    match r.result
    case Escaped => Run(r.effects, true)
    case ReturnedTrue => Run(r.effects + CaptionEffects(submission, output), false)
    case _ => Run(r.effects, false)
  }

  /** download_video as the script runs it. */
  method DownloadVideo(url: string, output: string, submission: Option<Submission>, w: VideoWorld)
    returns (effects: seq<Effect>, escaped: bool)
    ensures Run(effects, escaped) == VideoSteps(url, output, submission, w)
  {
    var success;
    success, effects := DownloadRedditVideo(url, output, w);
    if success == Escaped {
      return effects, true;
    }
    if success == ReturnedTrue && submission.Some? {
      effects := effects + [SaveCaption(submission.value, output)];
    }
    escaped := false;
  }

  /** A caption is written for a video exactly when the download returned True and there is a submission. */
  lemma VideoCaptionOnlyOnSuccess(url: string, output: string, s: Submission, w: VideoWorld)
    ensures (exists p, t :: WriteCaption(p, t) in VideoSteps(url, output, Some(s), w).effects) <==>
              RedditVideoSteps(url, output, w).result == ReturnedTrue
  {
    var r := RedditVideoSteps(url, output, w);
    var v := VideoSteps(url, output, Some(s), w);
    if r.result == ReturnedTrue {
      assert SaveCaption(s, output) in v.effects;
    } else {
      assert v.effects == r.effects;
    }
  }
}
