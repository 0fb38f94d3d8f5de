/**
 * One image task (`ImageProcessor.run`): decode the file, score it, write the
 * score into its name, and make exactly one report to the tracker.
 */
module ImageProcessor {
  import opened Wrappers
  import opened ImageContrastEvaluation
  import opened FileRenamer
  import opened Progress

  /**
   * What `ImageIO.read` gives: an IOException, null (no reader accepts the
   * file), or an image with its layout, size and pixel buffer.
   */
  datatype Decoded =
    | ReadFailed
    | NoImage
    | Image(kind: ImageKind, width: int, height: int, bytes: array<int8>)

  /** A decoded image has a positive size, and a 3-byte BGR image a buffer of three bytes per pixel. */
  ghost predicate WellFormed(d: Decoded)
    reads if d.Image? then {d.bytes} else {}
  {
    d.Image? ==> 1 <= d.width && 1 <= d.height && (d.kind == ThreeByteBgr ==> IsImage(d.bytes[..], d.width, d.height))
  }

  /**
   * `(int)(dimension * sampleCoverage)`, with the product taken exactly. The
   * coverage is in (0, 1], as the command line demands.
   */
  function Truncated(dimension: int, coverage: real): (t: int)
    requires 1 <= dimension && 0.0 < coverage <= 1.0
    ensures 0 <= t <= dimension
  {
    assert dimension as real * coverage <= dimension as real * 1.0;
    (dimension as real * coverage).Floor
  }

  /**
   * The report `run` makes for `file` and the paths afterwards, given what
   * decoding gave and the paths before.
   */
  function RunOutcome(file: string, d: Decoded, coverage: real, lum: Luminance, decimal: real -> string,
                      paths: set<string>): (r: (Report, set<string>))
    requires WellFormed(d) && 0.0 < coverage <= 1.0
    reads if d.Image? then {d.bytes} else {}
    ensures d == NoImage ==> r == (Skipped, paths)
    ensures d == ReadFailed || (d.Image? && d.kind == NonByteType) ==> r == (Failed, paths)
    ensures d.Image? && d.kind == OtherByteType ==> r == (NotSupported, paths)
    ensures r.1 != paths ==> r.0.Succeeded?
    ensures r.0.Succeeded? || r.0.SucceededButCantRename? ==> d.Image? && d.kind == ThreeByteBgr
    ensures r.0.SucceededButCantRename? ==> r.0.newFilename in paths && r.1 == paths
  {
    match d
    case ReadFailed => (Failed, paths)
    case NoImage => (Skipped, paths)
    case Image(kind, width, height, bytes) =>
      if kind == NonByteType then (Failed, paths)
      else if kind == OtherByteType then (NotSupported, paths)
      else
        var score := ContrastScore(lum, bytes[..], width, height, Truncated(height, coverage), Truncated(width, coverage));
        var text := ScoreText(score, decimal);
        var (renamed, after) := AddScoreStep(paths, file, text);
        if renamed.Pass? then (Succeeded(text), after)
        else (SucceededButCantRename(text, renamed.error.newFilename), after)
  }

  /**
   * A scored image's report carries its formatted score; the file is moved to
   * the score-bearing name exactly when that name was free, and the collision
   * report names that taken name.
   */
  lemma ScoredOutcome(file: string, d: Decoded, coverage: real, lum: Luminance, decimal: real -> string,
                      paths: set<string>)
    requires WellFormed(d) && 0.0 < coverage <= 1.0
    requires d.Image? && d.kind == ThreeByteBgr
    ensures var text := ScoreText(ContrastScore(lum, d.bytes[..], d.width, d.height,
                                                Truncated(d.height, coverage), Truncated(d.width, coverage)), decimal);
            var target := AddScoreTarget(file, text);
            var r := RunOutcome(file, d, coverage, lum, decimal, paths);
            (target !in paths ==> r == (Succeeded(text), Moved(paths, file, target)))
            && (target in paths ==> r == (SucceededButCantRename(text, target), paths))
  {
  }

  /**
   * run(): one report, of the outcome RunOutcome describes. The scorer's
   * ClassCastException and an IOException of the decoder end in
   * fileProcessFailed, like every other exception.
   */
  method Run(file: string, d: Decoded, coverage: real, lum: Luminance, decimal: real -> string,
             fs: FileSystem, progress: ProcessingProgress)
    requires WellFormed(d) && 0.0 < coverage <= 1.0 && progress.Valid()
    modifies fs, progress, progress.out
    ensures progress.Valid() && progress.processed == old(progress.processed) + 1
    ensures var (report, after) := old(RunOutcome(file, d, coverage, lum, decimal, fs.paths));
            fs.paths == after
            && progress.out.lines == old(progress.out.lines) + ReportLines(progress.toProcess, progress.processed, file, report)
  {
    match d {
      case ReadFailed =>
        progress.FileProcessFailed(file);
      case NoImage =>
        progress.FileSkipped(file);
      case Image(kind, width, height, bytes) =>
        var scored := ImageContrastScore(kind, width, height, bytes, lum, Truncated(height, coverage), Truncated(width, coverage));
        match scored {
          case Err(UnsupportedImageType) =>
            progress.FileProcessFailedBecauseImageNotSupported(file);
          case Err(ClassCast) =>
            progress.FileProcessFailed(file);
          case Ok(score) =>
            var text := ScoreText(score, decimal);
            var renamed := RenameAddingScore(fs, file, text);
            if renamed.Pass? {
              progress.FileProcessSucceeded(file, text);
            } else {
              progress.FileProcessSucceededButCantRename(file, text, renamed.error.newFilename);
            }
        }
    }
  }
}
