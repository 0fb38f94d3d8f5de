/**
 * The progress tracker shared by the image tasks (`processingProgress`, of
 * which DirectoryProcessor and PathsProcessor hold identical copies). Every
 * report counts one more processed file, prints a progress line, and prints
 * the summary when the count reaches the number of files to process.
 */
module Progress {
  import opened FilePaths
  import opened StandardOutput

  /** Which of the five report methods an image task calls. */
  datatype Report =
    | Skipped                                               // fileSkipped
    | Succeeded(scoreText: string)                          // fileProcessSucceeded
    | SucceededButCantRename(scoreText: string, newFilename: string) // fileProcessSucceededButCantRename
    | Failed                                                // fileProcessFailed
    | NotSupported                                          // fileProcessFailedBecauseImageNotSupported

  // ---------------------------------------------------------------------
  // The percentage

  /**
   * `Math.round((double) processed / toProcess * 100)`, computed exactly:
   * the quotient rounded to the nearest integer, halves upwards.
   */
  function Percent(processed: int, toProcess: int): int
    requires 0 <= processed && 1 <= toProcess
  {
    (200 * processed + toProcess) / (2 * toProcess)
  }

  /** The quotient `a / b` is the `q` with `q * b <= a < (q + 1) * b`. */
  lemma DivIsFloor(a: int, b: int)
    requires 0 <= a && 0 < b
    ensures (a / b) * b <= a < (a / b + 1) * b
  {
    assert a == (a / b) * b + a % b;
  }

  lemma MulMonotone(a: int, b: int, c: int)
    requires a <= b && 0 <= c
    ensures a * c <= b * c
  {
  }

  /** Dividing `lo * d <= v < hi * d` by a positive `d`. */
  lemma DivideBounds(lo: real, v: real, hi: real, d: real)
    requires 0.0 < d && lo * d <= v < hi * d
    ensures lo <= v / d < hi
  {
    var x := v / d;
    assert x * d == v;
  }

  /** Percent is 100 * processed / toProcess rounded to the nearest integer, halves rounded up. */
  lemma PercentIsRounded(processed: int, toProcess: int)
    requires 0 <= processed && 1 <= toProcess
    ensures var p := Percent(processed, toProcess) as real;
            var exact := 100.0 * processed as real / toProcess as real;
            p - 0.5 <= exact < p + 0.5
  {
    var q := Percent(processed, toProcess);
    DivIsFloor(200 * processed + toProcess, 2 * toProcess);
    assert 2 * toProcess * q - toProcess <= 200 * processed < 2 * toProcess * q + toProcess;
    var p := q as real;
    var d := toProcess as real;
    assert (p - 0.5) * d == (2 * toProcess * q - toProcess) as real / 2.0;
    assert (p + 0.5) * d == (2 * toProcess * q + toProcess) as real / 2.0;
    DivideBounds(p - 0.5, 100.0 * processed as real, p + 0.5, d);
  }

  /** While no more than `toProcess` files are done, the percentage is between 0 and 100. */
  lemma PercentBounds(processed: int, toProcess: int)
    requires 0 <= processed <= toProcess && 1 <= toProcess
    ensures 0 <= Percent(processed, toProcess) <= 100
  {
    var q := Percent(processed, toProcess);
    DivIsFloor(200 * processed + toProcess, 2 * toProcess);
    if q > 100 {
      MulMonotone(101, q, 2 * toProcess);
    }
  }

  /** The last report reads 100%. */
  lemma PercentComplete(toProcess: int)
    requires 1 <= toProcess
    ensures Percent(toProcess, toProcess) == 100
  {
    var q := Percent(toProcess, toProcess);
    DivIsFloor(200 * toProcess + toProcess, 2 * toProcess);
    if q > 100 {
      MulMonotone(101, q, 2 * toProcess);
    } else if q < 100 {
      MulMonotone(q + 1, 100, 2 * toProcess);
    }
  }

  /** The percentage never goes down as more files are processed. */
  lemma PercentMonotone(p1: int, p2: int, toProcess: int)
    requires 0 <= p1 <= p2 && 1 <= toProcess
    ensures Percent(p1, toProcess) <= Percent(p2, toProcess)
  {
    var q1 := Percent(p1, toProcess);
    var q2 := Percent(p2, toProcess);
    DivIsFloor(200 * p1 + toProcess, 2 * toProcess);
    DivIsFloor(200 * p2 + toProcess, 2 * toProcess);
    if q2 < q1 {
      MulMonotone(q2 + 1, q1, 2 * toProcess);
    }
  }

  // ---------------------------------------------------------------------
  // What one report prints

  function NoteOf(report: Report): Note
  {
    match report
    case Skipped => NotAnImage
    case Succeeded(text) => ScoreNote(text)
    case SucceededButCantRename(text, _) => ScoreNote(text)
    case Failed => ProcessingError
    case NotSupported => TypeNotSupported
  }

  /** checkIfAllFilesProcessed: the summary, once the count has reached the total. */
  function SummaryLines(processed: int, toProcess: int): seq<Line>
  {
    if processed == toProcess then [AllProcessed(processed)] else []
  }

  /**
   * The lines report `report` on `file` prints when it is the `processed`-th:
   * the progress line, then the collision line of a score that could not be
   * written into the name, then the summary when this was the last file.
   */
  function ReportLines(toProcess: int, processed: int, file: string, report: Report): (lines: seq<Line>)
    requires 0 <= processed && 1 <= toProcess
    ensures 1 <= |lines| && lines[0] == ProgressLine(Percent(processed, toProcess), Name(file), NoteOf(report))
    ensures report.SucceededButCantRename? ==> 2 <= |lines| && lines[1] == CannotRenameScored(Name(file), report.newFilename)
    ensures lines[|lines| - 1] == AllProcessed(processed) <==> processed == toProcess
  {
    [ProgressLine(Percent(processed, toProcess), Name(file), NoteOf(report))]
    + (if report.SucceededButCantRename? then [CannotRenameScored(Name(file), report.newFilename)] else [])
    + SummaryLines(processed, toProcess)
  }

  // ---------------------------------------------------------------------
  // The tracker

  /** processingProgress. `out` is standard output; the start time is not kept. */
  class ProcessingProgress {
    const toProcess: int
    var processed: int
    const out: Console

    ghost predicate Valid()
      reads this
    {
      1 <= toProcess && 0 <= processed
    }

    /** The tracker is only built for a non-empty list of images. */
    constructor (imagesToProcess: int, out: Console)
      requires 1 <= imagesToProcess
      ensures Valid() && toProcess == imagesToProcess && processed == 0 && this.out == out
    {
      toProcess := imagesToProcess;
      processed := 0;
      this.out := out;
    }

    method CheckIfAllFilesProcessed()
      modifies out
      ensures out.lines == old(out.lines) + SummaryLines(processed, toProcess)
    {
      if processed == toProcess {
        out.PrintLine(AllProcessed(processed));
      }
    }

    method PrintProgress(file: string, note: Note)
      requires Valid()
      modifies out
      ensures out.lines == old(out.lines) + [ProgressLine(Percent(processed, toProcess), Name(file), note)]
    {
      out.PrintLine(ProgressLine(Percent(processed, toProcess), Name(file), note));
    }

    method FileSkipped(file: string)
      requires Valid()
      modifies this, out
      ensures Valid() && processed == old(processed) + 1
      ensures out.lines == old(out.lines) + ReportLines(toProcess, processed, file, Skipped)
    {
      processed := processed + 1;
      PrintProgress(file, NotAnImage);
      CheckIfAllFilesProcessed();
    }

    method FileProcessSucceeded(file: string, scoreText: string)
      requires Valid()
      modifies this, out
      ensures Valid() && processed == old(processed) + 1
      ensures out.lines == old(out.lines) + ReportLines(toProcess, processed, file, Succeeded(scoreText))
    {
      processed := processed + 1;
      PrintProgress(file, ScoreNote(scoreText));
      CheckIfAllFilesProcessed();
    }

    method FileProcessSucceededButCantRename(file: string, scoreText: string, newFilename: string)
      requires Valid()
      modifies this, out
      ensures Valid() && processed == old(processed) + 1
      ensures out.lines == old(out.lines) + ReportLines(toProcess, processed, file, SucceededButCantRename(scoreText, newFilename))
    {
      processed := processed + 1;
      PrintProgress(file, ScoreNote(scoreText));
      out.PrintLine(CannotRenameScored(Name(file), newFilename));
      CheckIfAllFilesProcessed();
    }

    method FileProcessFailed(file: string)
      requires Valid()
      modifies this, out
      ensures Valid() && processed == old(processed) + 1
      ensures out.lines == old(out.lines) + ReportLines(toProcess, processed, file, Failed)
    {
      processed := processed + 1;
      PrintProgress(file, ProcessingError);
      CheckIfAllFilesProcessed();
    }

    method FileProcessFailedBecauseImageNotSupported(file: string)
      requires Valid()
      modifies this, out
      ensures Valid() && processed == old(processed) + 1
      ensures out.lines == old(out.lines) + ReportLines(toProcess, processed, file, NotSupported)
    {
      processed := processed + 1;
      PrintProgress(file, TypeNotSupported);
      CheckIfAllFilesProcessed();
    }
  }

  // ---------------------------------------------------------------------
  // A whole run of reports

  /** What the tracker prints for `reports`, the `k`-th of them being the `k`-th processed file. */
  function TrackerLog(toProcess: int, reports: seq<(string, Report)>): seq<Line>
    requires 1 <= toProcess
  {
    if reports == [] then []
    else
      var n := |reports|;
      TrackerLog(toProcess, reports[..n - 1]) + ReportLines(toProcess, n, reports[n - 1].0, reports[n - 1].1)
  }

  function CountSummaries(lines: seq<Line>): nat
  {
    if lines == [] then 0
    else CountSummaries(lines[..|lines| - 1]) + (if lines[|lines| - 1].AllProcessed? then 1 else 0)
  }

  function CountProgressLines(lines: seq<Line>): nat
  {
    if lines == [] then 0
    else CountProgressLines(lines[..|lines| - 1]) + (if lines[|lines| - 1].ProgressLine? then 1 else 0)
  }

  lemma {:induction false} CountsConcat(a: seq<Line>, b: seq<Line>)
    ensures CountSummaries(a + b) == CountSummaries(a) + CountSummaries(b)
    ensures CountProgressLines(a + b) == CountProgressLines(a) + CountProgressLines(b)
  {
    if b == [] {
      assert a + b == a;
    } else {
      assert (a + b)[..|a + b| - 1] == a + b[..|b| - 1];
      CountsConcat(a, b[..|b| - 1]);
    }
  }

  /** One report prints one progress line, and the summary exactly when it is the last. */
  lemma ReportCounts(toProcess: int, processed: int, file: string, report: Report)
    requires 0 <= processed && 1 <= toProcess
    ensures CountProgressLines(ReportLines(toProcess, processed, file, report)) == 1
    ensures CountSummaries(ReportLines(toProcess, processed, file, report)) == if processed == toProcess then 1 else 0
  {
    var head := [ProgressLine(Percent(processed, toProcess), Name(file), NoteOf(report))];
    var collision := if report.SucceededButCantRename? then [CannotRenameScored(Name(file), report.newFilename)] else [];
    var summary := SummaryLines(processed, toProcess);
    assert ReportLines(toProcess, processed, file, report) == head + collision + summary;
    CountsConcat(head, collision);
    CountsConcat(head + collision, summary);
    assert CountSummaries(head) == 0 && CountProgressLines(head) == 1 by {
      assert head[..0] == [];
    }
    if collision != [] {
      assert collision[..0] == [];
    }
    if summary != [] {
      assert summary[..0] == [];
    }
  }

  /**
   * Over `n` reports, no more than `toProcess`, the tracker prints one progress
   * line per report, and the summary once if `n` reached `toProcess`, never otherwise.
   */
  lemma {:induction false} TrackerLogCounts(toProcess: int, reports: seq<(string, Report)>)
    requires 1 <= toProcess && |reports| <= toProcess
    ensures CountProgressLines(TrackerLog(toProcess, reports)) == |reports|
    ensures CountSummaries(TrackerLog(toProcess, reports)) == if |reports| == toProcess then 1 else 0
  {
    if reports != [] {
      var n := |reports|;
      TrackerLogCounts(toProcess, reports[..n - 1]);
      ReportCounts(toProcess, n, reports[n - 1].0, reports[n - 1].1);
      CountsConcat(TrackerLog(toProcess, reports[..n - 1]), ReportLines(toProcess, n, reports[n - 1].0, reports[n - 1].1));
    }
  }

  /** After all `toProcess` reports the summary has been printed exactly once, as the very last line. */
  lemma SummaryOnceAtEnd(toProcess: int, reports: seq<(string, Report)>)
    requires 1 <= toProcess && |reports| == toProcess
    ensures CountSummaries(TrackerLog(toProcess, reports)) == 1
    ensures var log := TrackerLog(toProcess, reports); log[|log| - 1] == AllProcessed(toProcess)
  {
    TrackerLogCounts(toProcess, reports);
    var n := |reports|;
    var last := ReportLines(toProcess, n, reports[n - 1].0, reports[n - 1].1);
    assert TrackerLog(toProcess, reports) == TrackerLog(toProcess, reports[..n - 1]) + last;
  }
}
