/**
 download_posts: for every configured subreddit, walk its top posts in order, decide from
 the URL whether the post is a static file, a video or neither, derive the file name
 under `data/downloaded`, and run the matching download routine.

 The listing itself comes from the Reddit API and is given as one sequence of posts per
 subreddit. The outcomes the world gives the downloads are a `World`: the HTTP reply and
 the video-tool outcomes for each URL.
 */
module Acquisition {
  import opened Wrappers
  import opened Text
  import opened Fetcher
  import Normalizer

  /** The download routine chosen for a post, with its URL and destination path. */
  datatype Download =
    | StaticDownload(url: string, path: string)
    | VideoDownload(url: string, path: string)
    | NoDownload

  /** What the outside world answers, per URL. */
  datatype World = World(reply: string -> HttpReply, video: string -> VideoWorld)

  /** The extensions that mark a URL as a directly downloadable file. */
  predicate StaticUrl(url: string) {
    EndsWith(url, ".jpg") || EndsWith(url, ".jpeg") || EndsWith(url, ".png") || EndsWith(url, ".gif")
  }

  /** The folder every download lands in: `os.path.join('data', 'downloaded', name)`. */
  function DownloadedPath(name: string): string {
    Join(Join("data", "downloaded"), name)
  }

  /**
   The classification in download_posts: a static extension takes precedence and keeps the
   text after the URL's last dot as the extension; otherwise a `v.redd.it` URL or a post
   flagged as video is saved as `<id>.mp4`; anything else is skipped.
   */
  function Classify(s: Submission): Download {
    if StaticUrl(s.url) then
      StaticDownload(s.url, DownloadedPath(s.id + "." + AfterLast(s.url, '.')))
    else if Contains(s.url, "v.redd.it") || s.isVideo then
      VideoDownload(s.url, DownloadedPath(s.id + ".mp4"))
    else
      NoDownload
  }

  /** The extension a static URL carries: `jpg`, `jpeg`, `png` or `gif`. */
  function StaticExtension(url: string): string {
    if EndsWith(url, ".jpg") then "jpg"
    else if EndsWith(url, ".jpeg") then "jpeg"
    else if EndsWith(url, ".png") then "png"
    else "gif"
  }

  /** A URL ending with `.` and a dot-free extension has that extension after its last dot. */
  lemma ExtensionOfStaticUrl(url: string)
    requires StaticUrl(url)
    ensures AfterLast(url, '.') == StaticExtension(url)
  {
    var ext := StaticExtension(url);
    var stem := url[..|url| - |ext| - 1];
    assert url == stem + ['.'] + ext;
    AfterLastSeparator(stem, '.', ext);
  }

  /**
   Static posts are saved as `data/downloaded/<id>.<ext>` with the URL's own extension,
   and take precedence over the video test even for a `v.redd.it` URL or a video post.
   */
  lemma ClassifyStatic(s: Submission)
    requires StaticUrl(s.url) && !Absolute(s.id)
    ensures Classify(s) == StaticDownload(s.url, "data/downloaded/" + s.id + "." + StaticExtension(s.url))
  {
    ExtensionOfStaticUrl(s.url);
    Text.DownloadedPath(s.id + "." + StaticExtension(s.url));
    assert !Absolute(s.id + "." + StaticExtension(s.url)) by {
      if s.id == [] { assert (s.id + "." + StaticExtension(s.url))[0] == '.'; }
      else { assert (s.id + "." + StaticExtension(s.url))[0] == s.id[0]; }
    }
  }

  /** A non-static post whose URL contains `v.redd.it`, or that is flagged as video, is saved as `data/downloaded/<id>.mp4`. */
  lemma ClassifyVideo(s: Submission)
    requires !StaticUrl(s.url) && !Absolute(s.id)
    requires (exists i :: OccursAt(s.url, "v.redd.it", i)) || s.isVideo
    ensures Classify(s) == VideoDownload(s.url, "data/downloaded/" + s.id + ".mp4")
  {
    Text.DownloadedPath(s.id + ".mp4");
    assert !Absolute(s.id + ".mp4") by {
      if s.id == [] { assert (s.id + ".mp4")[0] == '.'; }
      else { assert (s.id + ".mp4")[0] == s.id[0]; }
    }
  }

  /** Every other post is skipped. */
  lemma ClassifySkip(s: Submission)
    requires !StaticUrl(s.url) && !s.isVideo && !(exists i :: OccursAt(s.url, "v.redd.it", i))
    ensures Classify(s) == NoDownload
  {
  }

  /**
   What the normaliser later makes of each downloaded file: `.jpg`, `.jpeg` and `.png`
   downloads are images, videos are `.mp4` videos, and `.gif` downloads are never normalised.
   */
  lemma DownloadedKinds(s: Submission)
    ensures Classify(s).StaticDownload? && StaticExtension(s.url) != "gif" ==>
              Normalizer.KindOf(Classify(s).path) == Normalizer.Image
    ensures Classify(s).StaticDownload? && StaticExtension(s.url) == "gif" ==>
              Normalizer.KindOf(Classify(s).path) == Normalizer.Unsupported
    ensures Classify(s).VideoDownload? ==> Normalizer.KindOf(Classify(s).path) == Normalizer.Video
  {
    if StaticUrl(s.url) {
      ExtensionOfStaticUrl(s.url);
      StaticDownloadKind(s.id, StaticExtension(s.url));
    } else if Classify(s).VideoDownload? {
      DownloadedNameEnds(s.id, ".mp4");
    }
  }

  /** The kind the normaliser gives a static download saved as `<id>.<ext>`. */
  lemma StaticDownloadKind(id: string, ext: string)
    requires ext == "jpg" || ext == "jpeg" || ext == "png" || ext == "gif"
    ensures ext != "gif" ==> Normalizer.KindOf(DownloadedPath(id + "." + ext)) == Normalizer.Image
    ensures ext == "gif" ==> Normalizer.KindOf(DownloadedPath(id + "." + ext)) == Normalizer.Unsupported
  {
    var suffix := "." + ext;
    assert id + "." + ext == id + suffix;
    DownloadedNameEnds(id, suffix);
    if ext == "jpg" {
      assert suffix == ".jpg";
    } else if ext == "jpeg" {
      assert suffix == ".jpeg";
    } else if ext == "png" {
      assert suffix == ".png";
    } else {
      assert suffix == ".gif";
      GifIsNotMedia(DownloadedPath(id + suffix));
    }
  }

  /** The downloaded path of `stem + suffix` ends with `suffix`. */
  lemma DownloadedNameEnds(stem: string, suffix: string)
    ensures EndsWith(DownloadedPath(stem + suffix), suffix)
  {
    JoinKeepsName(Join("data", "downloaded"), stem + suffix);
    EndsWithAppended(stem, suffix);
    EndsWithTransitive(DownloadedPath(stem + suffix), stem + suffix, suffix);
  }

  /** A suffix of a suffix is a suffix. */
  lemma EndsWithTransitive(s: string, t: string, u: string)
    requires EndsWith(s, t) && EndsWith(t, u)
    ensures EndsWith(s, u)
  {
    assert s[|s| - |u|..] == s[|s| - |t|..][|t| - |u|..];
  }

  /** A name ending in `.gif` has neither an image nor the video extension. */
  lemma GifIsNotMedia(name: string)
    requires EndsWith(name, ".gif")
    ensures !Normalizer.ImageName(name) && !Normalizer.VideoName(name)
  {
    EndsWithLastChar(name, ".gif");
    if EndsWith(name, ".jpg") { EndsWithLastChar(name, ".jpg"); }
    if EndsWith(name, ".jpeg") { EndsWithLastChar(name, ".jpeg"); }
    if EndsWith(name, ".png") { EndsWithLastChar(name, ".png"); }
    if EndsWith(name, ".mp4") { EndsWithLastChar(name, ".mp4"); }
  }

  // ---------------------------------------------------------------------------
  // The walk over the posts
  // ---------------------------------------------------------------------------

  /** One post: the chosen download routine with the world's outcomes for its URL. */
  function FetchPost(s: Submission, world: World): Run {
    match Classify(s)
    case StaticDownload(url, path) => MediaSteps(url, path, Some(s), world.reply(url))
    case VideoDownload(url, path) => VideoSteps(url, path, Some(s), world.video(url))
    case NoDownload => Run([], false)
  }

  /** Running `a` and then, unless an exception escaped `a`, running `b`. */
  function Then(a: Run, b: Run): Run {
    if a.escaped then a else Run(a.effects + b.effects, b.escaped)
  }

  lemma ThenAssociative(a: Run, b: Run, c: Run)
    ensures Then(Then(a, b), c) == Then(a, Then(b, c))
  {
    if !a.escaped && !b.escaped {
      assert (a.effects + b.effects) + c.effects == a.effects + (b.effects + c.effects);
    }
  }

  /** A run with no effects and no escape changes nothing when it comes first. */
  lemma ThenNothing(r: Run)
    ensures Then(Run([], false), r) == r
  {
    assert [] + r.effects == r.effects;
  }

  /** The posts of one subreddit, in order, until an exception escapes a download. */
  function FetchAll(posts: seq<Submission>, world: World): Run
    decreases |posts|
  {
    if posts == [] then Run([], false)
    else Then(FetchPost(posts[0], world), FetchAll(posts[1..], world))
  }

  /** All subreddits, in order, until an exception escapes a download. */
  function FetchFeeds(feeds: seq<seq<Submission>>, world: World): Run
    decreases |feeds|
  {
    if feeds == [] then Run([], false)
    else Then(FetchAll(feeds[0], world), FetchFeeds(feeds[1..], world))
  }

  /** All posts of all subreddits, one after the other. */
  function Flatten(feeds: seq<seq<Submission>>): seq<Submission>
    decreases |feeds|
  {
    if feeds == [] then [] else feeds[0] + Flatten(feeds[1..])
  }

  lemma {:induction false} FetchAllAppend(a: seq<Submission>, b: seq<Submission>, world: World)
    ensures FetchAll(a + b, world) == Then(FetchAll(a, world), FetchAll(b, world))
    decreases |a|
  {
    if a == [] {
      assert a + b == b;
    } else {
      assert (a + b)[1..] == a[1..] + b;
      FetchAllAppend(a[1..], b, world);
      ThenAssociative(FetchPost(a[0], world), FetchAll(a[1..], world), FetchAll(b, world));
    }
  }

  /** The per-subreddit loops behave as one loop over all posts in order. */
  lemma {:induction false} FetchFeedsIsOneWalk(feeds: seq<seq<Submission>>, world: World)
    ensures FetchFeeds(feeds, world) == FetchAll(Flatten(feeds), world)
    decreases |feeds|
  {
    if feeds != [] {
      FetchFeedsIsOneWalk(feeds[1..], world);
      FetchAllAppend(feeds[0], Flatten(feeds[1..]), world);
    }
  }

  /** Skipped posts leave no trace: removing them from a listing changes nothing. */
  lemma {:induction false} SkippedPostsHaveNoEffect(before: seq<Submission>, s: Submission, after: seq<Submission>, world: World)
    requires Classify(s) == NoDownload
    ensures FetchAll(before + [s] + after, world) == FetchAll(before + after, world)
  {
    FetchAllAppend(before + [s], after, world);
    FetchAllAppend(before, [s], world);
    FetchAllAppend(before, after, world);
    assert [s][1..] == [];
    var r := FetchAll(before, world);
    if !r.escaped {
      assert r.effects + [] == r.effects;
    }
  }

  /**
   An exception escaping one post's download ends the whole run: no later post of
   this or any later subreddit is fetched.
   */
  lemma EscapeEndsRun(before: seq<Submission>, s: Submission, after: seq<Submission>, world: World)
    requires FetchPost(s, world).escaped
    ensures FetchAll(before + [s] + after, world) == FetchAll(before + [s], world)
    ensures FetchAll(before + [s] + after, world).escaped
  {
    FetchAllAppend(before + [s], after, world);
    FetchAllAppend(before, [s], world);
    assert [s][1..] == [];
  }

  /** The body of download_posts' inner loop: classify one post and run its download. */
  method DownloadPost(submission: Submission, world: World) returns (effects: seq<Effect>, escaped: bool)
    ensures Run(effects, escaped) == FetchPost(submission, world)
  {
    var url := submission.url;
    if EndsWith(url, ".jpg") || EndsWith(url, ".jpeg") || EndsWith(url, ".png") || EndsWith(url, ".gif") {
      var ext := AfterLast(url, '.');
      var filename := submission.id + "." + ext;
      var downloadPath := Join(Join("data", "downloaded"), filename);
      effects, escaped := DownloadMedia(url, downloadPath, Some(submission), world.reply(url));
    } else if Contains(url, "v.redd.it") || submission.isVideo {
      var outputFile := Join(Join("data", "downloaded"), submission.id + ".mp4");
      effects, escaped := DownloadVideo(url, outputFile, Some(submission), world.video(url));
    } else {
      effects, escaped := [], false;
    }
  }

  /**
   download_posts: for each subreddit, for each of its listed posts, classify the post
   and run download_media or download_video; an exception escaping a download ends it.
   */
  method DownloadPosts(feeds: seq<seq<Submission>>, world: World) returns (effects: seq<Effect>, escaped: bool)
    ensures Run(effects, escaped) == FetchFeeds(feeds, world)
  {
    effects, escaped := [], false;
    var i := 0;
    assert feeds[0..] == feeds;
    ThenNothing(FetchFeeds(feeds, world));
    while i < |feeds|
      invariant 0 <= i <= |feeds|
      invariant !escaped
      invariant FetchFeeds(feeds, world) == Then(Run(effects, false), FetchFeeds(feeds[i..], world))
    {
      assert feeds[i..][1..] == feeds[i + 1..];
      var posts := feeds[i];
      ghost var rest := FetchFeeds(feeds[i + 1..], world);
      assert FetchFeeds(feeds[i..], world) == Then(FetchAll(posts, world), rest);
      assert posts[0..] == posts;
      var j := 0;
      while j < |posts|
        invariant 0 <= j <= |posts|
        invariant !escaped
        invariant FetchFeeds(feeds, world) == Then(Run(effects, false), Then(FetchAll(posts[j..], world), rest))
      {
        assert posts[j..][1..] == posts[j + 1..];
        var submission := posts[j];
        var stepEffects, stepEscaped := DownloadPost(submission, world);
        ghost var step := Run(stepEffects, stepEscaped);
        assert FetchAll(posts[j..], world) == Then(step, FetchAll(posts[j + 1..], world));
        ThenAssociative(step, FetchAll(posts[j + 1..], world), rest);
        ThenAssociative(Run(effects, false), step, Then(FetchAll(posts[j + 1..], world), rest));
        effects := effects + stepEffects;
        if stepEscaped {
          return effects, true;
        }
        j := j + 1;
      }
      assert posts[j..] == [];
      ThenNothing(rest);
      i := i + 1;
    }
    assert feeds[i..] == [];
    assert effects + [] == effects;
  }
}
