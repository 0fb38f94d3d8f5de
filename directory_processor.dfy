/**
 * DirectoryProcessor: scoring every image of one directory (`process`) and
 * restoring the names of every file of one directory (`restoreFilenames`).
 * Whether the path is a directory, which of its files `filterImages` keeps and
 * what `listFiles` returns are inputs: MIME sniffing and listing are not modelled.
 */
module DirectoryProcessor {
  import opened Wrappers
  import opened FilePaths
  import opened StandardOutput
  import opened ImageContrastEvaluation
  import opened FileRenamer
  import opened Progress
  import opened ImageProcessor
  import opened Batch

  /** The last line of restoreFilenames, for `restored` files restored. */
  function RestoreSummary(restored: nat): Line
  {
    if restored == 0 then NoFileMatched else FilesRestored(restored)
  }

  /**
   * "Nothing to restore" is printed exactly when no file's restore returned
   * true; otherwise the line carries the number of files restored.
   */
  lemma NothingToRestore(files: seq<string>, paths: set<string>)
    ensures var outcomes := RestoreRun(files, paths).0;
            (RestoreSummary(CountRestored(outcomes)) == NoFileMatched
             <==> forall i :: 0 <= i < |files| ==> outcomes[i] != Ok(true))
            && (RestoreSummary(CountRestored(outcomes)) != NoFileMatched
                ==> RestoreSummary(CountRestored(outcomes)) == FilesRestored(CountRestored(outcomes)))
  {
    NothingRestored(RestoreRun(files, paths).0);
  }

  /**
   * process: an error line for a path that is not a directory; otherwise the
   * "looking" line, then either the no-images line or the count of images
   * followed by what the tracker prints for one task per image.
   */
  method Process(path: string, isDirectory: bool, images: seq<Task>, coverage: real, lum: Luminance,
                 decimal: real -> string, fs: FileSystem, out: Console)
    requires AllWellFormed(images) && 0.0 < coverage <= 1.0
    modifies fs, out
    ensures !isDirectory ==> fs.paths == old(fs.paths) && out.lines == old(out.lines) + [NotADirectory(path)]
    ensures isDirectory && images == [] ==>
              fs.paths == old(fs.paths) && out.lines == old(out.lines) + [LookingIn(path), NoImagesInPath]
    ensures isDirectory && images != [] ==>
              var (reports, after) := old(RunAll(images, coverage, lum, decimal, fs.paths));
              fs.paths == after
              && out.lines == old(out.lines) + [LookingIn(path), FoundImages(|images|)] + TrackerLog(|images|, reports)
  {
    assert forall b | b in Buffers(images) :: allocated(b);
    ghost var run := RunAll(images, coverage, lum, decimal, fs.paths);
    if !isDirectory {
      out.PrintLine(NotADirectory(path));
    } else {
      out.PrintLine(LookingIn(path));
      if images == [] {
        out.PrintLine(NoImagesInPath);
      } else {
        out.PrintLine(FoundImages(|images|));
        assert RunAll(images, coverage, lum, decimal, fs.paths) == run;
        assert out.lines == old(out.lines) + [LookingIn(path), FoundImages(|images|)];
        DispatchAll(images, coverage, lum, decimal, fs, out);
      }
    }
  }

  /**
   * restoreFilenames: an error line for a path that is not a directory;
   * otherwise the "looking" line, one line per collision, then the summary.
   */
  method RestoreFilenames(path: string, isDirectory: bool, files: seq<string>, fs: FileSystem, out: Console)
    modifies fs, out
    ensures !isDirectory ==> fs.paths == old(fs.paths) && out.lines == old(out.lines) + [NotADirectory(path)]
    ensures isDirectory ==>
              var (outcomes, after) := old(RestoreRun(files, fs.paths));
              fs.paths == after
              && out.lines == old(out.lines) + [LookingIn(path)] + CollisionLines(files, outcomes)
                              + [RestoreSummary(CountRestored(outcomes))]
  {
    if !isDirectory {
      out.PrintLine(NotADirectory(path));
    } else {
      out.PrintLine(LookingIn(path));
      var processedImages := RestoreLoop(files, fs, out);
      if processedImages == 0 {
        out.PrintLine(NoFileMatched);
      } else {
        out.PrintLine(FilesRestored(processedImages));
      }
    }
  }
}
