/**
 process_media: walks the names listed in the input folder, picks one of the four
 standardisation routines from the file extension and the configured method string,
 and writes the result under the same name in the output folder.

 A routine that cannot open, decode or write its file raises, and process_media has
 no handler, so the exception ends the walk: the files after it are not processed.
 */
module Normalizer {
  import opened Wrappers
  import opened Text
  import opened Geometry

  /** What the extension says a file is. */
  datatype MediaKind = Image | Video | Unsupported

  /** The configured standardisation method. */
  datatype Method = AspectRatio | Square

  /** The four standardize_* routines. */
  datatype Routine = ImageAspectRatioRoutine | ImageSquareRoutine | VideoAspectRatioRoutine | VideoSquareRoutine

  /** One directory entry: its name, and its picture size when the routine can open it. */
  datatype Entry = Entry(name: string, media: Option<Dims>)

  /** The geometry a routine applies. */
  datatype Layout = Paste(placement: Placement) | Pad(margins: Margins)

  datatype JobResult = Written(layout: Layout) | Raised

  /** One call of a standardisation routine. */
  datatype Job = Job(routine: Routine, input: string, output: string, result: JobResult)

  predicate ImageName(name: string) {
    EndsWith(name, ".jpg") || EndsWith(name, ".jpeg") || EndsWith(name, ".png")
  }

  predicate VideoName(name: string) {
    EndsWith(name, ".mp4")
  }

  /** No name has both an image and the video extension, so the order of the two tests does not matter. */
  lemma ImageAndVideoNamesDisjoint(name: string)
    ensures !(ImageName(name) && VideoName(name))
  {
    if VideoName(name) {
      EndsWithLastChar(name, ".mp4");
      if EndsWith(name, ".jpg") { EndsWithLastChar(name, ".jpg"); }
      if EndsWith(name, ".jpeg") { EndsWithLastChar(name, ".jpeg"); }
      if EndsWith(name, ".png") { EndsWithLastChar(name, ".png"); }
    }
  }

  /** The closed classification of a file name: `.jpg`, `.jpeg`, `.png` are images, `.mp4` is video. */
  function KindOf(name: string): (k: MediaKind)
    ensures k == Image <==> ImageName(name)
    ensures k == Video <==> VideoName(name)
    ensures k == Unsupported <==> !ImageName(name) && !VideoName(name)
  {
    ImageAndVideoNamesDisjoint(name);
    if ImageName(name) then Image
    else if VideoName(name) then Video
    else Unsupported
  }

  /** The method strings the script recognises; any other string selects nothing. */
  function MethodOf(s: string): (m: Option<Method>)
    ensures m == Some(AspectRatio) <==> s == "instagram_aspect_ratio"
    ensures m == Some(Square) <==> s == "square_shape"
  {
    if s == "instagram_aspect_ratio" then Some(AspectRatio)
    else if s == "square_shape" then Some(Square)
    else None
  }

  /** The routine applied to a file name under a standardization string, if any. */
  function Route(name: string, standardization: string): (r: Option<Routine>)
    ensures r.Some? <==> KindOf(name) != Unsupported && MethodOf(standardization).Some?
    ensures r == Some(ImageAspectRatioRoutine) <==> ImageName(name) && standardization == "instagram_aspect_ratio"
    ensures r == Some(ImageSquareRoutine) <==> ImageName(name) && standardization == "square_shape"
    ensures r == Some(VideoAspectRatioRoutine) <==> VideoName(name) && standardization == "instagram_aspect_ratio"
    ensures r == Some(VideoSquareRoutine) <==> VideoName(name) && standardization == "square_shape"
  {
    match (KindOf(name), MethodOf(standardization))
    case (Image, Some(AspectRatio)) => Some(ImageAspectRatioRoutine)
    case (Image, Some(Square)) => Some(ImageSquareRoutine)
    case (Video, Some(AspectRatio)) => Some(VideoAspectRatioRoutine)
    case (Video, Some(Square)) => Some(VideoSquareRoutine)
    case _ => None
  }

  /** The geometry each routine computes for a source of size `d`. */
  function LayoutFor(r: Routine, d: Dims): Layout {
    match r
    case ImageAspectRatioRoutine => Paste(ImageAspectRatio(d.width, d.height))
    case ImageSquareRoutine => Paste(ImageSquare(d.width, d.height))
    case VideoAspectRatioRoutine => Pad(VideoAspectRatio(d.width, d.height))
    case VideoSquareRoutine => Pad(VideoSquare(d.width, d.height))
  }

  /** What a routine does with one entry: writes the padded file, or raises. */
  function Run(r: Routine, media: Option<Dims>): JobResult {
    match media
    case Some(d) => Written(LayoutFor(r, d))
    case None => Raised
  }

  /** Which routine, if any, a walk applies to a file name. */
  type Router = string -> Option<Routine>

  /** The dispatch of process_media under one method string. */
  function Dispatch(standardization: string): Router {
    name => Route(name, standardization)
  }

  /** The job for one entry, if the router selects a routine for its name. */
  function JobFor(inDir: string, outDir: string, route: Router, e: Entry): Option<Job> {
    match route(e.name)
    case None => None
    case Some(r) => Some(Job(r, Join(inDir, e.name), Join(outDir, e.name), Run(r, e.media)))
  }

  /** The jobs the walk over `entries` performs, in order, up to and including the first that raises. */
  function Normalize(inDir: string, outDir: string, route: Router, entries: seq<Entry>): seq<Job>
    decreases |entries|
  {
    if entries == [] then []
    else
      match JobFor(inDir, outDir, route, entries[0])
      case None => Normalize(inDir, outDir, route, entries[1..])
      case Some(j) =>
        if j.result.Raised? then [j]
        else [j] + Normalize(inDir, outDir, route, entries[1..])
  }

  /** The entries the router selects a routine for, in order. */
  function Routed(route: Router, entries: seq<Entry>): seq<Entry> {
    if entries == [] then []
    else if route(entries[0].name).Some? then [entries[0]] + Routed(route, entries[1..])
    else Routed(route, entries[1..])
  }

  /** `j` is the job the walk makes for `e`. */
  predicate JobOf(inDir: string, outDir: string, route: Router, j: Job, e: Entry) {
    && route(e.name) == Some(j.routine)
    && j.input == Join(inDir, e.name)
    && j.output == Join(outDir, e.name)
    && j.result == Run(j.routine, e.media)
  }

  /** The routed entries are entries of the listing that the router selects a routine for. */
  lemma {:induction false} RoutedEntries(route: Router, entries: seq<Entry>)
    ensures forall e :: e in Routed(route, entries) ==> e in entries && route(e.name).Some?
    decreases |entries|
  {
    if entries != [] {
      RoutedEntries(route, entries[1..]);
    }
  }

  /** The k-th job is the job of the k-th routed entry. */
  predicate JobsFollow(inDir: string, outDir: string, route: Router, jobs: seq<Job>, routed: seq<Entry>) {
    && |jobs| <= |routed|
    && forall k :: 0 <= k < |jobs| ==> JobOf(inDir, outDir, route, jobs[k], routed[k])
  }

  /**
   The walk handles the routed entries in listing order, one job each, reading the entry
   under the input folder and writing the same name under the output folder.
   */
  lemma {:induction false} NormalizeFollowsRouted(inDir: string, outDir: string, route: Router, entries: seq<Entry>)
    ensures JobsFollow(inDir, outDir, route, Normalize(inDir, outDir, route, entries), Routed(route, entries))
    decreases |entries|
  {
    if entries != [] {
      var rest := Normalize(inDir, outDir, route, entries[1..]);
      var routedRest := Routed(route, entries[1..]);
      NormalizeFollowsRouted(inDir, outDir, route, entries[1..]);
      match JobFor(inDir, outDir, route, entries[0])
      case None =>
        assert Normalize(inDir, outDir, route, entries) == rest;
        assert Routed(route, entries) == routedRest;
      case Some(j) =>
        assert JobOf(inDir, outDir, route, j, entries[0]);
        assert Routed(route, entries) == [entries[0]] + routedRest;
        if j.result.Raised? {
          assert Normalize(inDir, outDir, route, entries) == [j];
        } else {
          assert Normalize(inDir, outDir, route, entries) == [j] + rest;
          JobsFollowCons(inDir, outDir, route, j, entries[0], rest, routedRest);
        }
    }
  }

  /** The walk stops short of the last routed entry only after a job that raised. */
  lemma {:induction false} NormalizeStopsShortOnlyAfterRaise(inDir: string, outDir: string, route: Router, entries: seq<Entry>)
    ensures var jobs := Normalize(inDir, outDir, route, entries);
            |jobs| < |Routed(route, entries)| ==> |jobs| > 0 && jobs[|jobs| - 1].result.Raised?
    decreases |entries|
  {
    if entries != [] {
      var rest := Normalize(inDir, outDir, route, entries[1..]);
      NormalizeStopsShortOnlyAfterRaise(inDir, outDir, route, entries[1..]);
      match JobFor(inDir, outDir, route, entries[0])
      case None =>
        assert Normalize(inDir, outDir, route, entries) == rest;
        assert Routed(route, entries) == Routed(route, entries[1..]);
      case Some(j) =>
        assert Routed(route, entries) == [entries[0]] + Routed(route, entries[1..]);
        if !j.result.Raised? {
          var jobs := [j] + rest;
          assert Normalize(inDir, outDir, route, entries) == jobs;
          if |rest| > 0 {
            assert jobs[|jobs| - 1] == rest[|rest| - 1];
          }
        }
    }
  }

  /** Putting a matching job in front of matching jobs keeps them matching. */
  lemma JobsFollowCons(inDir: string, outDir: string, route: Router, j: Job, e: Entry, jobs: seq<Job>, routed: seq<Entry>)
    requires JobOf(inDir, outDir, route, j, e) && JobsFollow(inDir, outDir, route, jobs, routed)
    ensures JobsFollow(inDir, outDir, route, [j] + jobs, [e] + routed)
  {
    forall k | 0 <= k < |jobs| + 1
      ensures JobOf(inDir, outDir, route, ([j] + jobs)[k], ([e] + routed)[k])
    {
      if k > 0 {
        assert ([j] + jobs)[k] == jobs[k - 1] && ([e] + routed)[k] == routed[k - 1];
      }
    }
  }

  /** Every job but the last wrote its output. */
  predicate OnlyLastRaised(jobs: seq<Job>) {
    forall k :: 0 <= k < |jobs| - 1 ==> jobs[k].result.Written?
  }

  /** Only the last job can have raised: the walk ends at the first routine that fails. */
  lemma {:induction false} NormalizeStopsAtFirstFailure(inDir: string, outDir: string, route: Router, entries: seq<Entry>)
    ensures OnlyLastRaised(Normalize(inDir, outDir, route, entries))
    decreases |entries|
  {
    if entries != [] {
      var rest := Normalize(inDir, outDir, route, entries[1..]);
      NormalizeStopsAtFirstFailure(inDir, outDir, route, entries[1..]);
      match JobFor(inDir, outDir, route, entries[0])
      case None =>
        assert Normalize(inDir, outDir, route, entries) == rest;
      case Some(j) =>
        if !j.result.Raised? {
          assert Normalize(inDir, outDir, route, entries) == [j] + rest;
        }
    }
  }

  /**
   When every routed entry can be opened, the walk runs to the end: one written job
   per routed entry.
   */
  lemma {:induction false} NormalizeCompleteWithoutFailure(inDir: string, outDir: string, route: Router, entries: seq<Entry>)
    requires forall e :: e in entries && route(e.name).Some? ==> e.media.Some?
    ensures |Normalize(inDir, outDir, route, entries)| == |Routed(route, entries)|
    ensures forall j :: j in Normalize(inDir, outDir, route, entries) ==> j.result.Written?
    decreases |entries|
  {
    if entries != [] {
      NormalizeCompleteWithoutFailure(inDir, outDir, route, entries[1..]);
      var rest := Normalize(inDir, outDir, route, entries[1..]);
      match JobFor(inDir, outDir, route, entries[0])
      case None =>
        assert Normalize(inDir, outDir, route, entries) == rest;
        assert Routed(route, entries) == Routed(route, entries[1..]);
      case Some(j) =>
        assert j.result.Written?;
        assert Normalize(inDir, outDir, route, entries) == [j] + rest;
        assert Routed(route, entries) == [entries[0]] + Routed(route, entries[1..]);
    }
  }

  /** A walk whose router selects nothing for any listed name does nothing. */
  lemma {:induction false} NormalizeNothingRouted(inDir: string, outDir: string, route: Router, entries: seq<Entry>)
    requires forall e :: e in entries ==> route(e.name).None?
    ensures Normalize(inDir, outDir, route, entries) == []
    decreases |entries|
  {
    if entries != [] {
      NormalizeNothingRouted(inDir, outDir, route, entries[1..]);
    }
  }

  /** A method string other than the two recognised ones processes nothing. */
  lemma NormalizeUnknownMethod(inDir: string, outDir: string, standardization: string, entries: seq<Entry>)
    requires standardization != "instagram_aspect_ratio" && standardization != "square_shape"
    ensures Normalize(inDir, outDir, Dispatch(standardization), entries) == []
  {
    NormalizeNothingRouted(inDir, outDir, Dispatch(standardization), entries);
  }

  /**
   Nothing listed after a failing file matters: the walk over `before + [bad] + after`
   is the walk over `before + [bad]`.
   */
  lemma {:induction false} FailureEndsWalk(inDir: string, outDir: string, route: Router,
                                           before: seq<Entry>, bad: Entry, after: seq<Entry>)
    requires route(bad.name).Some? && bad.media.None?
    ensures Normalize(inDir, outDir, route, before + [bad] + after)
         == Normalize(inDir, outDir, route, before + [bad])
    decreases |before|
  {
    if before == [] {
      assert ([bad] + after)[1..] == after;
      assert [bad][1..] == [];
    } else {
      assert (before + [bad] + after)[1..] == before[1..] + [bad] + after;
      assert (before + [bad])[1..] == before[1..] + [bad];
      FailureEndsWalk(inDir, outDir, route, before[1..], bad, after);
    }
  }

  /** The if-chain of process_media: extension first, then the method string. */
  method ChooseRoutine(filename: string, standardization: string) returns (routine: Option<Routine>)
    ensures routine == Route(filename, standardization)
  {
    routine := None;
    if EndsWith(filename, ".jpg") || EndsWith(filename, ".jpeg") || EndsWith(filename, ".png") {
      if standardization == "instagram_aspect_ratio" {
        routine := Some(ImageAspectRatioRoutine);
      } else if standardization == "square_shape" {
        routine := Some(ImageSquareRoutine);
      }
    } else if EndsWith(filename, ".mp4") {
      if standardization == "instagram_aspect_ratio" {
        routine := Some(VideoAspectRatioRoutine);
      } else if standardization == "square_shape" {
        routine := Some(VideoSquareRoutine);
      }
    }
  }

  /**
   process_media over a listing: for each name, dispatch on the extension, then on the
   method string, and run the chosen routine; an exception from a routine propagates
   and ends the walk.
   */
  method ProcessMedia(inputFolder: string, outputFolder: string, standardization: string, listing: seq<Entry>)
    returns (jobs: seq<Job>)
    ensures jobs == Normalize(inputFolder, outputFolder, Dispatch(standardization), listing)
  {
    ghost var route := Dispatch(standardization);
    jobs := [];
    var i := 0;
    while i < |listing|
      invariant 0 <= i <= |listing|
      invariant jobs + Normalize(inputFolder, outputFolder, route, listing[i..])
             == Normalize(inputFolder, outputFolder, route, listing)
    {
      var filename := listing[i].name;
      var inputPath := Join(inputFolder, filename);
      var outputPath := Join(outputFolder, filename);
      var routine := ChooseRoutine(filename, standardization);
      ghost var rest := Normalize(inputFolder, outputFolder, route, listing[i + 1..]);
      assert listing[i..][1..] == listing[i + 1..];
      assert routine == route(filename);
      if routine.Some? {
        var result := Run(routine.value, listing[i].media);
        ghost var job := Job(routine.value, inputPath, outputPath, result);
        assert JobFor(inputFolder, outputFolder, route, listing[i]) == Some(job);
        jobs := jobs + [Job(routine.value, inputPath, outputPath, result)];
        if result.Raised? {
          assert Normalize(inputFolder, outputFolder, route, listing[i..]) == [job];
          return;
        }
        assert Normalize(inputFolder, outputFolder, route, listing[i..]) == [job] + rest;
      } else {
        assert JobFor(inputFolder, outputFolder, route, listing[i]).None?;
        assert Normalize(inputFolder, outputFolder, route, listing[i..]) == rest;
      }
      i := i + 1;
    }
  }

  /**
   The partial-failure case of a three-file folder: when the second file cannot be
   processed, the third is never reached.
   */
  lemma SecondOfThreeFails(first: Dims, second: string, third: Dims)
    requires VideoName(second)
    ensures var listing := [Entry("a.jpg", Some(first)), Entry(second, None), Entry("c.png", Some(third))];
            var jobs := Normalize("in", "out", Dispatch("square_shape"), listing);
            && |jobs| == 2
            && jobs[0].output == "out/a.jpg" && jobs[0].result.Written?
            && jobs[1].result == Raised
  {
    var listing := [Entry("a.jpg", Some(first)), Entry(second, None), Entry("c.png", Some(third))];
    var route := Dispatch("square_shape");
    EndsWithAppended("a", ".jpg");
    assert "a" + ".jpg" == "a.jpg";
    assert route("a.jpg") == Some(ImageSquareRoutine);
    assert route(second) == Some(VideoSquareRoutine);
    assert Join("out", "a.jpg") == "out/a.jpg";
    var j0 := Job(ImageSquareRoutine, Join("in", "a.jpg"), "out/a.jpg", Run(ImageSquareRoutine, Some(first)));
    var j1 := Job(VideoSquareRoutine, Join("in", second), Join("out", second), Raised);
    assert JobFor("in", "out", route, listing[0]) == Some(j0);
    assert JobFor("in", "out", route, listing[1]) == Some(j1);
    assert listing[1..][1..] == [listing[2]];
    assert Normalize("in", "out", route, listing[1..]) == [j1];
    assert Normalize("in", "out", route, listing) == [j0, j1];
  }
}
