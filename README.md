# poster_catch: a Dafny model of the download and normalisation core

poster_catch is a single script, `combined.py`, with two stages.

- **Download stage** (`download_posts`). It walks the top posts of each configured subreddit. A post whose URL ends in `.jpg`, `.jpeg`, `.png` or `.gif` is fetched with one HTTP GET (`download_media`). A `v.redd.it` URL, or a post flagged as video, is fetched with yt-dlp (`download_reddit_video`). When yt-dlp raises `CalledProcessError`, an ffmpeg fallback stitches the DASH video and audio segments together. `download_video` writes the post's caption after a successful video download, and `download_media` writes it after a status-200 download.
- **Normalisation stage** (`process_media`). It walks a folder and pads every `.jpg`/`.jpeg`/`.png` image and every `.mp4` video to a 4:5 portrait or a square frame, depending on the method string `instagram_aspect_ratio` or `square_shape`. There is no scaling: images are pasted at an offset on a larger canvas, and videos get four margins.

The model has six modules.

| file | module | what it holds |
|---|---|---|
| `wrappers.dfy` | `Wrappers` | `Option` |
| `text.dfy` | `Text` | `str.endswith`, the `in` test on strings, `split(c)[-1]`, and `os.path.join` on POSIX |
| `geometry.dfy` | `Geometry` | the padding arithmetic of the four `standardize_*` functions, as pure functions with lemmas |
| `normalizer.dfy` | `Normalizer` | the dispatch of `process_media`, the walk over a folder listing as a specification function (`Normalize`), and the loop as a method proved equal to it |
| `fetcher.dfy` | `Fetcher` | the state machines of `download_media`, `download_reddit_video` and `download_video`, each as a function giving the effect trace and a method proved equal to it; the caption text of `save_caption` |
| `acquisition.dfy` | `Acquisition` | the classification of posts in `download_posts`, the walk over all feeds as a specification function, and the nested loops as a method proved equal to it |

How the outside world is represented:

- **Outcomes as parameters.** Everything the script asks of the outside world is a parameter:
  - the HTTP reply (`HttpReply`);
  - how each subprocess ends: exit 0, `CalledProcessError`, or another exception (`ProcessEnd`);
  - whether yt-dlp's output file exists (`VideoWorld`);
  - per URL, which reply or tool outcomes a post gets (`World`);
  - whether a standardisation routine can open its file, and the file's size (`Entry.media`).
- **Effect traces.** The routines yield the ordered trace of what they do: GETs, file writes, commands run, files removed, captions written. They also yield how they end: the value returned, or an exception escaping.

Where the float arithmetic of the script (`width / height > 4 / 5`, `int(width / (4 / 5))`, `int(height * (4 / 5))`) appears, the model uses the exact integer forms:
- `5 * w > 4 * h` for the comparison;
- `(5 * w) / 4` and `(4 * h) / 5` for the truncating `int(...)`.

It assumes the float computations agree with these.

Two consequences of the code worth knowing:
- **Canvas size.** `int()` truncates, so the 4:5 canvas is only approximately 4:5. `ImageAspectRatioNearTarget` states the bounds.
- **Failures end the walk.** `process_media` has no exception handler (combined.py:174-188), so a routine that raises ends the walk. `Normalize`, `FailureEndsWalk` and `SecondOfThreeFails` model and state that. The same holds for `download_posts` (combined.py:190-203): an exception escaping a download ends it. Such an exception is a failed request, or a non-`CalledProcessError` exception inside the ffmpeg fallback.

## Model

| member | source | states |
|---|---|---|
| Text.EndsWith | combined.py:179 | Python's `s.endswith(suffix)`: `s` finishes with exactly the characters of `suffix` (also used at lines 184 and 196) |
| Text.Join | combined.py:176-177 | `os.path.join` on POSIX: an absolute second part replaces the first; otherwise a `/` is inserted unless the first is empty or already ends with one (also used at lines 199 and 202); its properties are in `JoinKeepsName` |
| Text.Contains | combined.py:201 | `sub in s` holds exactly when `sub` occurs at some index of `s` |
| Text.AfterLast | combined.py:197 | `s.split(c)[-1]` is the suffix of `s` that has no `c`, and that is either all of `s` or preceded by a `c` |
| Text.AfterLastSeparator | combined.py:197 | the text after the last `c` of `stem + c + tail` is `tail` when `tail` has no `c` |
| Text.JoinKeepsName | combined.py:176-177 | `os.path.join(a, b)` is `b`, `a + b` or `a + "/" + b`, and always ends with `b`; it is `b` itself when `b` is absolute; otherwise it starts with `a` |
| Text.DownloadedPath | combined.py:199 | `os.path.join('data', 'downloaded', name)` is `data/downloaded/<name>` for a relative name |
| Geometry.ImageAspectRatio | combined.py:104-117 | the branch is `5w > 4h`; a wide source keeps its width and gets the tallest height `H` with `4H <= 5w`, offset x 0; otherwise the height is kept and the width is the widest `W` with `5W <= 4h`, offset y 0; the source lies inside the canvas, centred to within one pixel on the trailing side; an exact 4:5 source gets no padding |
| Geometry.ImageAspectRatioNearTarget | combined.py:107-116 | the canvas misses 4:5 only by the truncation: `4H - 5W` lies in [-3, 4], and is 0 exactly when the truncating `int()` loses nothing |
| Geometry.ImageAspectRatioIdempotent | combined.py:104-117 | standardising an already standardised canvas adds no padding |
| Geometry.VideoAspectRatio | combined.py:121-132 | margins are symmetric and non-negative; the unpadded axis gets none; the padded side falls short of the 4:5 target by at most one pixel |
| Geometry.VideoAspectRatioMatchesImage | combined.py:124-132 | the video margins are the image offsets; the padded frame is never larger than the image canvas, and equals it exactly when the slack is even |
| Geometry.VideoAspectRatioIdempotent | combined.py:124-132 | re-padding a padded video adds no margins |
| Geometry.ImageSquare | combined.py:136-146 | the canvas is square, with side `max(w, h)`; the source lies inside it, centred along the shorter side, with a zero offset along the longer side; a square source gets no padding |
| Geometry.VideoSquare | combined.py:150-170 | the padded frame is exactly square, with side `w` or `h`; `top <= bottom <= top + 1` and `left <= right <= left + 1`; the longer axis gets no margin |
| Geometry.VideoSquareMatchesImage | combined.py:153-163 | the square video frame is the square image canvas, and the top and left margins are the image offsets |
| Geometry.SquareIdempotent | combined.py:139-163 | squaring an already squared image or video adds nothing |
| Normalizer.ImageAndVideoNamesDisjoint | combined.py:179-184 | no file name has both an image extension and `.mp4` |
| Normalizer.KindOf | combined.py:179-184 | a name is an image exactly when it ends `.jpg`/`.jpeg`/`.png`, a video exactly when it ends `.mp4`, and unsupported otherwise |
| Normalizer.MethodOf | combined.py:180-188 | only `instagram_aspect_ratio` and `square_shape` select a method |
| Normalizer.Route | combined.py:179-188 | each of the four routines is chosen exactly for its extension class and method string; nothing is chosen otherwise |
| Normalizer.ChooseRoutine | combined.py:179-188 | the if-chain of `process_media` chooses exactly the routine `Route` gives |
| Normalizer.Normalize | combined.py:174-188 | the walk `process_media` performs: one job per entry the router selects, in listing order, up to and including the first job that raised; its properties are in the `Normalize*` lemmas below |
| Normalizer.ProcessMedia | combined.py:174-188 | the loop performs exactly the jobs of `Normalize` over the listing, stopping after a routine that raises |
| Normalizer.NormalizeFollowsRouted | combined.py:175-188 | the k-th job is the routine `Route` selects for the k-th eligible name, reading `join(input, name)` and writing `join(output, name)` |
| Normalizer.NormalizeStopsShortOnlyAfterRaise | combined.py:175-188 | the walk stops before the last eligible name only right after a job that raised |
| Normalizer.NormalizeStopsAtFirstFailure | combined.py:175-188 | every job except possibly the last wrote its output |
| Normalizer.NormalizeCompleteWithoutFailure | combined.py:175-188 | when every eligible file can be processed, there is one written job per eligible name |
| Normalizer.NormalizeNothingRouted | combined.py:179-188 | a listing with no eligible name produces no jobs |
| Normalizer.NormalizeUnknownMethod | combined.py:180-188 | an unrecognised method string processes nothing |
| Normalizer.FailureEndsWalk | combined.py:174-188 | nothing listed after a failing file is processed |
| Normalizer.SecondOfThreeFails | combined.py:174-188 | in a three-file folder whose second file fails, the first file is written, the second raises, and the third is never reached |
| Fetcher.CaptionText | combined.py:100-102 | the caption is the title, followed by a blank line and the body exactly when the body is non-empty |
| Fetcher.FallbackSteps | combined.py:69-91 | the ffmpeg fallback: video segment, audio segment, mux, then removal of both segments; the first command that fails ends it, with False for `CalledProcessError` and an escape otherwise; its properties are in `FallbackOrder`, `FallbackFailures` and `CleanupExactlyOnFallbackSuccess` |
| Fetcher.RedditVideoSteps | combined.py:51-94 | the state machine of `download_reddit_video`: yt-dlp first; exit 0 gives True or None depending on the output file; `CalledProcessError` enters the fallback; any other exception gives False; its properties are in the lemmas below |
| Fetcher.DownloadRedditVideo | combined.py:51-94 | the try/except structure performs exactly the commands and result of `RedditVideoSteps` |
| Fetcher.PrimaryFirst | combined.py:53-60 | the first command is yt-dlp on the URL into the output file |
| Fetcher.FallbackOnlyAfterCalledProcessError | combined.py:60-69 | an ffmpeg command is issued exactly when yt-dlp raised `CalledProcessError` |
| Fetcher.FallbackOrder | combined.py:70-82 | fallback order: `url/DASH_1080.mp4` into `out_temp_video.mp4`, then `url/DASH_audio.mp4` into `out_temp_audio.mp4`, then the mux; each runs exactly when the one before exited 0 |
| Fetcher.TrueExactlyOnSuccess | combined.py:62-88 | True is returned exactly when yt-dlp succeeded and left the output file, or when the fallback's three commands all succeeded |
| Fetcher.PrimaryWithoutFallback | combined.py:60-94 | yt-dlp exiting 0 without an output file returns None with no fallback, and None arises in no other case; any other exception from yt-dlp returns False with no fallback |
| Fetcher.FallbackFailures | combined.py:76-91 | the fallback returns False exactly when its first failing command raised `CalledProcessError`; the exception escapes exactly when that command raised anything else |
| Fetcher.CleanupExactlyOnFallbackSuccess | combined.py:79-88 | the temporary files are removed (video, then audio, after the mux) exactly when the fallback succeeds |
| Fetcher.MediaSteps | combined.py:31-40 | the trace of `download_media`: the GET; on status 200 the body written at the path, then the caption when there is a post; otherwise nothing more; a request exception escapes; its properties are in `MediaWritesOnlyOn200` |
| Fetcher.DownloadMedia | combined.py:31-40 | `download_media` performs exactly the trace of `MediaSteps`: the GET, then on status 200 the file write and the caption |
| Fetcher.MediaWritesOnlyOn200 | combined.py:32-35 | a file is written exactly on status 200, with the response body verbatim at the given path |
| Fetcher.VideoSteps | combined.py:42-49 | the trace of `download_video`: the trace of `download_reddit_video`, then the caption only when it returned True; an escaping exception propagates; its properties are in `VideoCaptionOnlyOnSuccess` |
| Fetcher.DownloadVideo | combined.py:42-49 | `download_video` performs exactly the trace of `VideoSteps` |
| Fetcher.VideoCaptionOnlyOnSuccess | combined.py:43-48 | a video's caption is written exactly when `download_reddit_video` returned True |
| Acquisition.Classify | combined.py:196-203 | the if/elif of `download_posts`: static URL first, with the extension after the last dot; then `v.redd.it` or a video post as `<id>.mp4`; otherwise skip; its properties are in the `Classify*` lemmas below |
| Acquisition.ExtensionOfStaticUrl | combined.py:196-197 | the text after the last dot of a static URL is its extension: `jpg`, `jpeg`, `png` or `gif` |
| Acquisition.ClassifyStatic | combined.py:196-200 | a static URL is saved as `data/downloaded/<id>.<ext>`, and takes precedence over the video rule |
| Acquisition.ClassifyVideo | combined.py:201-203 | a non-static URL containing `v.redd.it`, or a video post, is saved as `data/downloaded/<id>.mp4` |
| Acquisition.ClassifySkip | combined.py:196-203 | every other post is skipped |
| Acquisition.DownloadedKinds | combined.py:196-203 | `process_media` treats a `.jpg`/`.jpeg`/`.png` download as an image and a video download as a video; it never processes a `.gif` download |
| Acquisition.StaticDownloadKind | combined.py:196-199 | the extension class of `data/downloaded/<id>.<ext>` for each static extension |
| Acquisition.GifIsNotMedia | combined.py:179-184 | a `.gif` name has neither an image nor the video extension |
| Acquisition.FetchPost | combined.py:195-203 | one post: `download_media` for a static download, `download_video` for a video download, nothing for a skipped post, with the outcomes the world gives the post's URL |
| Acquisition.FetchAll | combined.py:194-203 | the posts of one subreddit in order, each after the previous one unless an exception escaped it; its properties are in `FetchAllAppend`, `SkippedPostsHaveNoEffect` and `EscapeEndsRun` |
| Acquisition.FetchFeeds | combined.py:190-203 | the subreddits in order, each after the previous one unless an exception escaped it; its property is `FetchFeedsIsOneWalk` |
| Acquisition.DownloadPost | combined.py:195-203 | one iteration of the inner loop performs exactly the trace of `FetchPost` |
| Acquisition.DownloadPosts | combined.py:190-203 | the nested loops perform exactly the trace of `FetchFeeds`, stopping when an exception escapes a download |
| Acquisition.FetchAllAppend | combined.py:194-203 | walking `a + b` is walking `a` and then, unless it escaped, walking `b` |
| Acquisition.FetchFeedsIsOneWalk | combined.py:192-203 | the per-subreddit loops behave as one walk over all posts in order |
| Acquisition.SkippedPostsHaveNoEffect | combined.py:196-203 | removing a skipped post from a listing changes nothing |
| Acquisition.EscapeEndsRun | combined.py:192-203 | after a download from which an exception escapes, no later post is fetched |

## Left out

- Pixel work is not modelled: `Image.new`, `paste`, JPEG saving, `VideoFileClip.margin` and `write_videofile`, and the black versus transparent fill. These are library calls. A routine is its geometry plus "writes the output or raises".
- Floating point is not modelled. The 4/5 comparison and the two `int(...)` sizes are their exact integer forms, assuming IEEE arithmetic agrees with them.
- Media of zero width or height is not modelled. `Dims` has both sides positive, and a file that cannot be opened or decoded is an entry without a size, which raises.
- `requests.get`, `subprocess.run`, `os.path.exists` and `os.remove` are not executed. Their outcomes are parameters, and their effects, like the file writes, are trace entries. A failing `os.remove` after a successful mux is not modelled.
- Media and caption writes are assumed to succeed. `open(download_path, 'wb')` and `f.write` (combined.py:34-35), and the caption write (combined.py:99-102), have no outcome parameter. An `OSError` from them would escape `download_media` or `download_video` and end `download_posts`; that is not modelled.
- `World` gives outcomes per URL. A URL listed twice, such as a crosspost in two subreddits, gets the same HTTP reply and tool outcomes both times. No proved property depends on this.
- Exceptions other than `CalledProcessError` raised inside the ffmpeg fallback are modelled only as "an exception escapes". The kind of exception and where it is caught further up are not tracked.
- The Reddit API is not modelled: `authenticate_reddit`, `reddit.subreddit(...).top(...)`, and the timeframe and limit arguments. The listing of each subreddit is given as a sequence of posts.
- The directory listing is not modelled. The order and contents of `os.listdir` are given as the listing.
- Configuration is not modelled: loading the credentials file with `exec`, `load_options`, the option lookups and `os.makedirs` in `main`.
- All `print` output is not modelled.
- Where `save_caption` writes (the `basename`/`splitext` derivation of the `.txt` path) and its file I/O are not modelled. A caption is a trace entry holding the media path and the caption text.
- Video decoding of the source size is not modelled. For a video, the size comes from the entry, like for an image.
