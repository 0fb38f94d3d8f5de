/**
 * PathsProcessor: the same two commands over a list of paths. The images that
 * `getImagesFiles` collects (each directory's image children and each
 * existing image file, in order) are an input.
 */
module PathsProcessor {
  import opened Wrappers
  import opened FilePaths
  import opened StandardOutput
  import opened ImageContrastEvaluation
  import opened FileRenamer
  import opened Progress
  import opened ImageProcessor
  import opened Batch

  /** The last line of restoreFilenames, for `restored` images restored. */
  function RestoreSummary(restored: nat): Line
  {
    if restored == 0 then NoImageMatched else ImagesRestored(restored)
  }

  /**
   * "Nothing to restore" is printed exactly when no image's restore returned
   * true; otherwise the line carries the number of images restored.
   */
  lemma NothingToRestore(images: seq<string>, paths: set<string>)
    ensures var outcomes := RestoreRun(images, paths).0;
            (RestoreSummary(CountRestored(outcomes)) == NoImageMatched
             <==> forall i :: 0 <= i < |images| ==> outcomes[i] != Ok(true))
            && (RestoreSummary(CountRestored(outcomes)) != NoImageMatched
                ==> RestoreSummary(CountRestored(outcomes)) == ImagesRestored(CountRestored(outcomes)))
  {
    NothingRestored(RestoreRun(images, paths).0);
  }

  /**
   * process: the "looking" line, then either the no-images line or the count
   * of images followed by what the tracker prints for one task per image.
   */
  method Process(images: seq<Task>, coverage: real, lum: Luminance, decimal: real -> string,
                 fs: FileSystem, out: Console)
    requires AllWellFormed(images) && 0.0 < coverage <= 1.0
    modifies fs, out
    ensures images == [] ==> fs.paths == old(fs.paths) && out.lines == old(out.lines) + [LookingForPictures, NoImagesFound]
    ensures images != [] ==>
              var (reports, after) := old(RunAll(images, coverage, lum, decimal, fs.paths));
              fs.paths == after
              && out.lines == old(out.lines) + [LookingForPictures, FoundImages(|images|)] + TrackerLog(|images|, reports)
  {
    assert forall b | b in Buffers(images) :: allocated(b);
    ghost var run := RunAll(images, coverage, lum, decimal, fs.paths);
    out.PrintLine(LookingForPictures);
    if images == [] {
      out.PrintLine(NoImagesFound);
    } else {
      out.PrintLine(FoundImages(|images|));
      assert RunAll(images, coverage, lum, decimal, fs.paths) == run;
      assert out.lines == old(out.lines) + [LookingForPictures, FoundImages(|images|)];
      DispatchAll(images, coverage, lum, decimal, fs, out);
    }
  }

  /** restoreFilenames: the "looking" line, one line per collision among the images, then the summary. */
  method RestoreFilenames(images: seq<string>, fs: FileSystem, out: Console)
    modifies fs, out
    ensures var (outcomes, after) := old(RestoreRun(images, fs.paths));
            fs.paths == after
            && out.lines == old(out.lines) + [LookingForPictures] + CollisionLines(images, outcomes)
                            + [RestoreSummary(CountRestored(outcomes))]
  {
    out.PrintLine(LookingForPictures);
    var restoredImages := RestoreLoop(images, fs, out);
    if restoredImages == 0 {
      out.PrintLine(NoImageMatched);
    } else {
      out.PrintLine(ImagesRestored(restoredImages));
    }
  }
}
