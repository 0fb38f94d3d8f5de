# Blurry, modelled in Dafny

Blurry is a command-line tool that ranks photos by sharpness. For every image
it computes a contrast score: the mean absolute luminance difference between
neighbouring pixels along a grid of sampled rows and columns. It then writes
the score into the file name, so `photo.jpg` becomes `photo __0.1234.jpg`. A
second command finds names that carry a score and restores the original
names. Both commands exist in two forms. One works on a single directory
(`DirectoryProcessor`). The other works on a list of paths (`PathsProcessor`).
A shared progress tracker prints one line per image and a summary at the end.

The model has these modules:

- `ImageContrastEvaluation` models the scorer. It contains
  `PixelLineContrastsSum` (the loop over one scanned line), the two stripe
  loops, and `ImageContrastScore`. Each is a method over the image's byte
  `array`, proved against specification functions: `LineDiffs`, `RowsDiffs`,
  `ColumnsDiffs`, `SampledDiffs` and `ContrastScore`.
- `ContrastProperties` proves what the score means. The score lies in [0, 1].
  It is NaN exactly on a 1x1 image. It has the values the unit tests expect on
  the uniform, chessboard and zebra test images.
- `FilePaths` models the commons-io and `File` helpers the renamer uses:
  extension, stem and name.
- `FileRenamer` models the name codec and the two renames. It has a file
  system class whose set of paths the renames update. The restore pattern
  `^.+( __[.\d]+)$` is modelled by a matcher. Separately, a declarative
  predicate says what a match is, and two lemmas prove that the matcher
  agrees with that predicate in both directions.
- `Progress` models the tracker class with its five report methods and their
  lines. It also models the integer percentage and the fact that the summary
  is printed exactly once, as the last line.
- `ImageProcessor` models one image task (`run`): decode, score, rename, report.
- `Batch` holds the loops both processors share. One runs every image task
  against one tracker. The other restores a list of names, counting restores
  and printing collisions.
- `DirectoryProcessor` and `PathsProcessor` model `process` and
  `restoreFilenames`, including every line they print.
- `StandardOutput` models standard output as a `Console` holding the sequence
  of lines printed so far.
- `Wrappers` holds `Option`, `Result` and `Outcome`.

The rename format in the code is `"%s __%.4f.%s"`: one space, then two
underscores, before the score. The restore pattern expects the same marker.

## Model

| member | source | states |
|---|---|---|
| ImageContrastEvaluation.Unsigned | src/main/java/com/giusilvano/blurry/ImageContrastEvaluation.java:79 | `b & 0xFF` is a channel value in 0..255 that equals the signed byte modulo 256 |
| ImageContrastEvaluation.LineDiffs | src/main/java/com/giusilvano/blurry/ImageContrastEvaluation.java:84-89 | a line of n pixels contributes one term per consecutive pair: n - 1 terms (none for an empty line) |
| ImageContrastEvaluation.LineDiffsAt | src/main/java/com/giusilvano/blurry/ImageContrastEvaluation.java:86-88 | term j of a line is the absolute luminance difference between its pixels j + 1 and j |
| ImageContrastEvaluation.LinePixels | src/main/java/com/giusilvano/blurry/ImageContrastEvaluation.java:77-85 | the loop visits at least the first pixel; every later visited offset is at most the stop index; the next offset is past it |
| ImageContrastEvaluation.LinePixelsExact | src/main/java/com/giusilvano/blurry/ImageContrastEvaluation.java:141 | a stop index that is the offset of pixel n - 1 makes the loop visit exactly n pixels |
| ImageContrastEvaluation.PixelLineContrastsSum | src/main/java/com/giusilvano/blurry/ImageContrastEvaluation.java:75-91 | the returned sum is the sum of the contrasts of consecutive visited pixels, from the first pixel to the last offset not past the stop index |
| ImageContrastEvaluation.StripesCount | src/main/java/com/giusilvano/blurry/ImageContrastEvaluation.java:120-126 | the number of stripes is between 1 and the side, whatever the truncated product, including the product 0 for which the scorer falls back to min(side, 100) |
| ImageContrastEvaluation.StripesSize | src/main/java/com/giusilvano/blurry/ImageContrastEvaluation.java:123 | the stripe size is at least 1, and size times count does not exceed the side |
| ImageContrastEvaluation.StripeCenter | src/main/java/com/giusilvano/blurry/ImageContrastEvaluation.java:135 | the centre line of every stripe lies inside the image |
| ImageContrastEvaluation.PixelInBounds | src/main/java/com/giusilvano/blurry/ImageContrastEvaluation.java:137-154 | all three bytes of every pixel of the image lie inside the buffer |
| ImageContrastEvaluation.RowsDiffsLength | src/main/java/com/giusilvano/blurry/ImageContrastEvaluation.java:133-143 | k scanned rows contribute k * (width - 1) terms |
| ImageContrastEvaluation.ColumnsDiffsLength | src/main/java/com/giusilvano/blurry/ImageContrastEvaluation.java:146-156 | k scanned columns contribute k * (height - 1) terms |
| ImageContrastEvaluation.SampledDiffs | src/main/java/com/giusilvano/blurry/ImageContrastEvaluation.java:158-159 | the number of summed terms is the divisor hCount * (width - 1) + vCount * (height - 1) |
| ImageContrastEvaluation.RowScan | src/main/java/com/giusilvano/blurry/ImageContrastEvaluation.java:135-142 | the scan of a stripe's centre row stays inside the buffer, visits width pixels and adds exactly that row's terms |
| ImageContrastEvaluation.ColumnScan | src/main/java/com/giusilvano/blurry/ImageContrastEvaluation.java:148-155 | the scan of a stripe's centre column stays inside the buffer, visits height pixels and adds exactly that column's terms |
| ImageContrastEvaluation.HorizontalStripesSum | src/main/java/com/giusilvano/blurry/ImageContrastEvaluation.java:133-143 | the first loop's sum is the sum of the terms of every stripe's centre row, top to bottom |
| ImageContrastEvaluation.VerticalStripesSum | src/main/java/com/giusilvano/blurry/ImageContrastEvaluation.java:146-156 | the second loop's sum is the sum of the terms of every stripe's centre column, left to right |
| ImageContrastEvaluation.ImageContrastScore | src/main/java/com/giusilvano/blurry/ImageContrastEvaluation.java:108-162 | a buffer not backed by bytes fails with the cast error, and only it; another byte layout fails as unsupported, and only it; a 3-byte BGR image gets the mean of the sampled terms |
| ContrastProperties.CountZeroOnlyForSinglePixel | src/main/java/com/giusilvano/blurry/ImageContrastEvaluation.java:159-161 | the divisor is zero exactly when the image is 1x1 |
| ContrastProperties.RowsWithin | src/main/java/com/giusilvano/blurry/ImageContrastEvaluation.java:133-143 | when every horizontal neighbour pair has a contrast in [lo, hi], so does every term of the row scans |
| ContrastProperties.ColumnsWithin | src/main/java/com/giusilvano/blurry/ImageContrastEvaluation.java:146-156 | when every vertical neighbour pair has a contrast in [lo, hi], so does every term of the column scans |
| ContrastProperties.MeanWithin | src/main/java/com/giusilvano/blurry/ImageContrastEvaluation.java:161 | the mean of terms in [lo, hi] lies in [lo, hi] |
| ContrastProperties.ScoreOfConstantPairs | src/main/java/com/giusilvano/blurry/ImageContrastEvaluation.java:158-161 | when all horizontal pairs have one contrast and all vertical pairs another, the score is their mean weighted by how many row and column terms are sampled |
| ContrastProperties.ScoreWithinUnitInterval | src/main/java/com/giusilvano/blurry/ImageContrastEvaluation.java:105-161 | with luminance values in [0, 1], the score is NaN exactly on a 1x1 image and lies in [0, 1] otherwise |
| ContrastProperties.PaintedContrast | src/test/java/com/giusilvano/blurry/ImageContrastEvaluationTest.java:20-25 | in a black-and-white image, two pixels of the same colour have contrast 0 and two of different colours have contrast 1 |
| ContrastProperties.ChessboardPairs | src/test/java/com/giusilvano/blurry/TestImages.java:59-61 | on the chessboard image every horizontal and vertical neighbour pair has contrast 1 |
| ContrastProperties.VerticalLinesPairs | src/test/java/com/giusilvano/blurry/TestImages.java:52-54 | on the vertical zebra image horizontal pairs have contrast 1 and vertical pairs 0 |
| ContrastProperties.HorizontalLinesPairs | src/test/java/com/giusilvano/blurry/TestImages.java:45-47 | on the horizontal zebra image horizontal pairs have contrast 0 and vertical pairs 1 |
| ContrastProperties.UniformScore | src/test/java/com/giusilvano/blurry/ImageContrastEvaluationTest.java:42-45 | an image of one colour other than 1x1, such as the all-black one, scores 0 |
| ContrastProperties.ChessboardScore | src/test/java/com/giusilvano/blurry/ImageContrastEvaluationTest.java:20-28 | the chessboard scores 1 at any coverage and size other than 1x1 |
| ContrastProperties.VerticalZebraScore | src/test/java/com/giusilvano/blurry/ImageContrastEvaluationTest.java:30-35 | the vertical zebra scores 0.5 on a square image of at least 2x2, with both stripe counts taken from one coverage |
| ContrastProperties.HorizontalZebraScore | src/test/java/com/giusilvano/blurry/ImageContrastEvaluationTest.java:37-40 | the horizontal zebra scores 0.5 on a square image of at least 2x2, with both stripe counts taken from one coverage |
| FilePaths.LastIndexWhere | src/main/java/com/giusilvano/blurry/FileRenamer.java:23-24 | the index found is -1, or a position inside the string whose character has the property |
| FilePaths.NoneAfterLast | src/main/java/com/giusilvano/blurry/FileRenamer.java:23-24 | no character after the index found has the property, so it is the last one |
| FilePaths.IndexOfExtension | src/main/java/com/giusilvano/blurry/FileRenamer.java:23 | the extension index is -1 or the position of a '.' |
| FilePaths.ExtensionDotIsLast | src/main/java/com/giusilvano/blurry/FileRenamer.java:23-24 | no dot or separator follows the extension's dot; without an extension, no dot follows the last separator |
| FilePaths.SplitExtension | src/main/java/com/giusilvano/blurry/FileRenamer.java:23-24 | a path is its stem, then the dot and extension when there is one; the extension holds no dot or separator |
| FilePaths.JoinExtension | src/main/java/com/giusilvano/blurry/FileRenamer.java:25 | a stem, a dot and an extension text split back into that stem and that extension |
| FilePaths.NameAfterLastSlash | src/main/java/com/giusilvano/blurry/FileRenamer.java:24 | a file's name is the part of its path after the last '/' |
| FilePaths.ExtensionAfterDirectory | src/main/java/com/giusilvano/blurry/FileRenamer.java:24 | a directory prefix that ends in a separator does not change the extension |
| FilePaths.ExtensionOfName | src/main/java/com/giusilvano/blurry/FileRenamer.java:23-24 | the extension of a file's name is the extension of its whole path |
| FileRenamer.DollarEnd | src/main/java/com/giusilvano/blurry/FileRenamer.java:12 | `$` matches at the position found, which lies inside the stem |
| FileRenamer.RunStartIsLongest | src/main/java/com/giusilvano/blurry/FileRenamer.java:12 | the run found is all digits and dots and cannot grow to the left |
| FileRenamer.MatchGroup | src/main/java/com/giusilvano/blurry/FileRenamer.java:41 | the group is never longer than the stem, so cutting it off is defined |
| FileRenamer.RestoreMatchSound | src/main/java/com/giusilvano/blurry/FileRenamer.java:12 | what the matcher finds is a match of `^.+( __[.\d]+)$` |
| FileRenamer.RestoreMatchComplete | src/main/java/com/giusilvano/blurry/FileRenamer.java:12 | every match of the pattern is the one the matcher finds, so the match and its group are unique |
| FileRenamer.RestoreNameAfterMarker | src/main/java/com/giusilvano/blurry/FileRenamer.java:36-41 | a one-line non-empty stem followed by the marker and a text of digits and dots is restored to the stem, a dot and the extension |
| FileRenamer.AddScoreTargetParts | src/main/java/com/giusilvano/blurry/FileRenamer.java:23-25 | the renamed file's stem is the old stem, the marker and the score; its extension is the old one |
| FileRenamer.RejoinExtension | src/main/java/com/giusilvano/blurry/FileRenamer.java:41 | stem, dot and extension give back the path, with a trailing dot added when it had no extension |
| FileRenamer.RestoreAfterAddScore | src/main/java/com/giusilvano/blurry/FileRenamer.java:22-50 | restoring a score-bearing name gives back the original name, or the name plus a dot when it had no extension |
| FileRenamer.NaNScoreNotRestorable | src/main/java/com/giusilvano/blurry/FileRenamer.java:11-12 | the name a NaN score produces never matches the restore pattern |
| FileRenamer.RunStartAfter | src/main/java/com/giusilvano/blurry/FileRenamer.java:12 | a run of digits and dots that follows another character is the run the group's `[.\d]+` spans |
| FileRenamer.LineTerminatorStemNotRestorable | src/main/java/com/giusilvano/blurry/FileRenamer.java:11-12 | a stem holding a line terminator is renamed with its score, and the resulting name is never restored |
| FileRenamer.FileSystem.RenameTo | src/main/java/com/giusilvano/blurry/FileRenamer.java:30 | an existing path is moved to the new name; a missing one changes nothing |
| FileRenamer.RenameAddingScore | src/main/java/com/giusilvano/blurry/FileRenamer.java:22-32 | an existing target fails with that target's name and changes nothing; otherwise the file is moved to the target |
| FileRenamer.RenameRemovingScore | src/main/java/com/giusilvano/blurry/FileRenamer.java:34-50 | no match gives false and no change; an existing target fails with its name and no change; otherwise the file moves and the result is true |
| FileRenamer.MoveBack | src/main/java/com/giusilvano/blurry/FileRenamer.java:42-47 | moving a file to a free name and back restores the set of paths |
| FileRenamer.AddScoreTargetLength | src/main/java/com/giusilvano/blurry/FileRenamer.java:25 | a name with an extension grows by exactly the marker and the score text |
| FileRenamer.RenameRoundTrip | src/main/java/com/giusilvano/blurry/FileRenamer.java:22-50 | for a file with an extension, a one-line stem, a score of digits and dots and a free target, renaming by the score and restoring the result both succeed and leave exactly the paths there were; a file without an extension comes back with a trailing dot instead (RestoreAfterAddScore) |
| Progress.PercentIsRounded | src/main/java/com/giusilvano/blurry/DirectoryProcessor.java:122-124 | the percentage is 100 * processed / toProcess rounded to the nearest integer |
| Progress.PercentBounds | src/main/java/com/giusilvano/blurry/DirectoryProcessor.java:123 | while no more files are processed than there are, the percentage is in 0..100 |
| Progress.PercentComplete | src/main/java/com/giusilvano/blurry/DirectoryProcessor.java:123 | the last report reads 100% |
| Progress.PercentMonotone | src/main/java/com/giusilvano/blurry/DirectoryProcessor.java:123 | the percentage never decreases as files are processed |
| Progress.ReportLines | src/main/java/com/giusilvano/blurry/DirectoryProcessor.java:91-134 | a report prints its progress line first, then the collision line, and ends with the summary exactly when it is the last file |
| Progress.ProcessingProgress.constructor | src/main/java/com/giusilvano/blurry/DirectoryProcessor.java:86-89 | a tracker starts with nothing processed out of the given number of images |
| Progress.ProcessingProgress.CheckIfAllFilesProcessed | src/main/java/com/giusilvano/blurry/DirectoryProcessor.java:130-134 | the summary is printed exactly when the count has reached the total |
| Progress.ProcessingProgress.PrintProgress | src/main/java/com/giusilvano/blurry/DirectoryProcessor.java:126-128 | one progress line with the percentage, the file's name and the note |
| Progress.ProcessingProgress.FileSkipped | src/main/java/com/giusilvano/blurry/DirectoryProcessor.java:91-95 | one more file is processed and its report's lines are printed |
| Progress.ProcessingProgress.FileProcessSucceeded | src/main/java/com/giusilvano/blurry/DirectoryProcessor.java:97-101 | one more file is processed and its score line, then the summary if it was the last, are printed |
| Progress.ProcessingProgress.FileProcessSucceededButCantRename | src/main/java/com/giusilvano/blurry/DirectoryProcessor.java:103-108 | one more file is processed; its score line, then its collision line, then the summary if last, are printed |
| Progress.ProcessingProgress.FileProcessFailed | src/main/java/com/giusilvano/blurry/DirectoryProcessor.java:110-114 | one more file is processed and its error line is printed |
| Progress.ProcessingProgress.FileProcessFailedBecauseImageNotSupported | src/main/java/com/giusilvano/blurry/DirectoryProcessor.java:116-120 | one more file is processed and its not-supported line is printed |
| Progress.ReportCounts | src/main/java/com/giusilvano/blurry/DirectoryProcessor.java:91-134 | every report prints exactly one progress line, and the summary only when it is the last |
| Progress.TrackerLogCounts | src/main/java/com/giusilvano/blurry/DirectoryProcessor.java:84-134 | n reports print n progress lines, and the summary once if n reached the total, never otherwise |
| Progress.SummaryOnceAtEnd | src/main/java/com/giusilvano/blurry/DirectoryProcessor.java:130-134 | after all reports the summary has been printed exactly once, and it is the last line |
| ImageProcessor.Truncated | src/main/java/com/giusilvano/blurry/ImageContrastEvaluation.java:120-125 | `(int)(side * coverage)` for a coverage in (0, 1] lies between 0 and the side |
| ImageProcessor.RunOutcome | src/main/java/com/giusilvano/blurry/ImageProcessor.java:20-40 | no image means skipped; a read or cast failure means failed; another byte layout means not supported; only a success moves a file; a collision names the taken name and changes nothing |
| ImageProcessor.ScoredOutcome | src/main/java/com/giusilvano/blurry/ImageProcessor.java:26-33 | a scored image is moved to its score-bearing name exactly when that name is free, and otherwise reports that name |
| ImageProcessor.Run | src/main/java/com/giusilvano/blurry/ImageProcessor.java:20-40 | a task makes exactly one report, changing the paths and printing as its outcome says |
| Batch.RunAll | src/main/java/com/giusilvano/blurry/DirectoryProcessor.java:43-45 | there is one report per image task |
| Batch.RunAllReport | src/main/java/com/giusilvano/blurry/DirectoryProcessor.java:43-45 | report i names task i's file; no image means skipped, a read or cast failure means failed, another byte layout means not supported, and a 3-byte BGR image is reported as scored with its own score text, renamed or colliding |
| Batch.RunNext | src/main/java/com/giusilvano/blurry/DirectoryProcessor.java:43-44 | running one more task keeps the tracker count, the printed log and the paths in step with the run so far |
| Batch.DispatchAll | src/main/java/com/giusilvano/blurry/DirectoryProcessor.java:41-50 | the tasks as a whole leave the paths and print exactly the tracker log of their reports |
| Batch.RestoreRun | src/main/java/com/giusilvano/blurry/DirectoryProcessor.java:62-70 | there is one restore outcome per file |
| Batch.RestoreRunOutcome | src/main/java/com/giusilvano/blurry/DirectoryProcessor.java:62-69 | a restore returns false exactly when the name has no score, and a collision names that file's restore target |
| Batch.RestoreCounts | src/main/java/com/giusilvano/blurry/DirectoryProcessor.java:61-70 | one line is printed per collision; restored files and collisions together never outnumber the files |
| Batch.NothingRestored | src/main/java/com/giusilvano/blurry/DirectoryProcessor.java:71-72 | the count is zero exactly when no restore returned true |
| Batch.OutcomeCounted | src/main/java/com/giusilvano/blurry/DirectoryProcessor.java:64-68 | a true restore adds one to the count; a collision adds its line; false or true adds no line |
| Batch.RestoreNext | src/main/java/com/giusilvano/blurry/DirectoryProcessor.java:63-69 | restoring one more file keeps the count, the printed lines and the paths in step with the run so far |
| Batch.RestoreLoop | src/main/java/com/giusilvano/blurry/DirectoryProcessor.java:61-70 | the loop returns the number of restored files, prints one line per collision in order, and leaves the paths the restores produce |
| DirectoryProcessor.NothingToRestore | src/main/java/com/giusilvano/blurry/DirectoryProcessor.java:71-75 | "nothing to restore" is printed exactly when no file was restored; otherwise the line carries the count |
| DirectoryProcessor.Process | src/main/java/com/giusilvano/blurry/DirectoryProcessor.java:30-53 | a non-directory gives only the error line; an empty directory the looking line and the no-images line; otherwise the count followed by the tracker log of all tasks |
| DirectoryProcessor.RestoreFilenames | src/main/java/com/giusilvano/blurry/DirectoryProcessor.java:55-77 | a non-directory gives only the error line; otherwise the looking line, the collision lines and the summary, and the paths the restores produce |
| PathsProcessor.NothingToRestore | src/main/java/com/giusilvano/blurry/PathsProcessor.java:80-84 | "nothing to restore" is printed exactly when no image was restored; otherwise the line carries the count |
| PathsProcessor.Process | src/main/java/com/giusilvano/blurry/PathsProcessor.java:47-65 | the looking line, then the no-images line, or the count followed by the tracker log of all tasks |
| PathsProcessor.RestoreFilenames | src/main/java/com/giusilvano/blurry/PathsProcessor.java:67-85 | the looking line, the collision lines and the summary, and the paths the restores produce |

## Left out

- Luminance table: the WCAG relative-luminance table, built with floating-point `pow` in the static initialiser (ImageContrastEvaluation.java:33-64), is a parameter `lum`. The range and test lemmas assume only that its entries lie in [0, 1] and that black is 0 and white 1.
- Floating point: sums, quotients and `abs` are exact reals, and `0.0 / 0.0` is the value NaN. Rounding of `double` sums is not modelled.
- ImageProcessor.Truncated: the float product `height * sampleCoverage` is computed exactly before truncation, so float rounding of that product is not modelled.
- ImageContrastEvaluation.ImageContrastScore: takes the two truncated products as inputs rather than the coverage.
- `%.4f` formatting and the default locale: the digits of a score are a parameter `decimal`. Under a locale with a decimal comma, the score text is not digits and dots, so the restore pattern does not match it. RestoreAfterAddScore and RenameRoundTrip require a text of digits and dots for this reason.
- FileRenamer.NaNScoreNotRestorable: a 1x1 image scores NaN and gets a name whose part before the extension ends in " __NaN". The model proves that such a name is never restored. The code does the same.
- FileRenamer.RestoreAfterAddScore and FileRenamer.RenameRoundTrip: both require a stem without line terminators. In the code, `^.+` does not cross a line terminator, so a file whose stem holds one is renamed but never restored. FileRenamer.LineTerminatorStemNotRestorable proves this.
- FileRenamer.RenameRoundTrip: requires a file with an extension. For a file without one, the code restores `x __0.1000.` to `x.`, not `x`, so the paths do not come back; RestoreAfterAddScore states that case.
- commons-io and `File`: `removeExtension`, `getExtension` and `getName` are modelled from their documented meaning (the last '.' after the last separator; the part after the last '/'), not from their library code. `getAbsolutePath` is the identity: paths are taken as already absolute.
- `File.renameTo` always succeeds when the source exists. Its boolean result is ignored by the code and not modelled.
- Decoding and listing: `ImageIO.read`, the MIME sniffing of `isImage` and `filterImages`, `listFiles`, `isDirectory`, `exists` and `getImagesFiles` are inputs. A decoded image, the list of files and the directory flag are given to the operations.
- Concurrency: the executor of `process` runs the tasks one after another in list order. The tracker's `synchronized` report methods are therefore plain methods, and other interleavings are not modelled.
- Timing: the start time and the elapsed milliseconds of the summary line are not kept.
- Java `int` overflow of byte offsets and counters is not modelled; integers are unbounded.
- `Main.java` and the command-line parsing are not part of this model.
- PathsProcessor keeps its own copy of the tracker class and passes it to ImageProcessor, whose constructor expects `DirectoryProcessor.processingProgress` (PathsProcessor.java:55-57, ImageProcessor.java:11-13). The model uses one tracker class for both processors.
- Progress.PercentIsRounded: `Math.round` of the `double` quotient is modelled as exact rounding half up. Float error in the quotient is not modelled.
- Progress.ProcessingProgress.constructor: requires at least one image to process. Both processors only build a tracker for a non-empty list.
- Exceptions that the tracker methods themselves might throw inside `run` are not modelled. Nor are other runtime errors of decoding, such as an OutOfMemoryError.
- Batch.RunAll: states only the number of reports. What each report is, is stated by Batch.RunAllReport.
