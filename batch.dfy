/**
 * The two loops both processors share: running one image task per image
 * against one tracker (the executor of `process`, here run one task after
 * another in list order), and restoring the original names of a list of files
 * (`restoreFilenames`).
 */
module Batch {
  import opened Wrappers
  import opened FilePaths
  import opened StandardOutput
  import opened ImageContrastEvaluation
  import opened FileRenamer
  import opened Progress
  import opened ImageProcessor

  /** A file found to be an image, and what decoding it gives. */
  datatype Task = Task(file: string, decoded: Decoded)

  ghost function Buffers(tasks: seq<Task>): set<array<int8>>
  {
    set i | 0 <= i < |tasks| && tasks[i].decoded.Image? :: tasks[i].decoded.bytes
  }

  ghost predicate AllWellFormed(tasks: seq<Task>)
    reads Buffers(tasks)
  {
    forall i :: 0 <= i < |tasks| ==> WellFormed(tasks[i].decoded)
  }

  // ---------------------------------------------------------------------
  // Image tasks

  /**
   * The reports of the tasks, in order, and the paths after the last one: each
   * task sees the paths the ones before it left.
   */
  ghost function RunAll(tasks: seq<Task>, coverage: real, lum: Luminance, decimal: real -> string,
                        paths: set<string>): (r: (seq<(string, Report)>, set<string>))
    requires AllWellFormed(tasks) && 0.0 < coverage <= 1.0
    reads Buffers(tasks)
    ensures |r.0| == |tasks|
  {
    if tasks == [] then ([], paths)
    else
      SuffixWellFormed(tasks, 1);
      assert tasks[0].decoded.Image? ==> tasks[0].decoded.bytes in Buffers(tasks);
      var (report, next) := RunOutcome(tasks[0].file, tasks[0].decoded, coverage, lum, decimal, paths);
      var (reports, after) := RunAll(tasks[1..], coverage, lum, decimal, next);
      ([(tasks[0].file, report)] + reports, after)
  }

  /**
   * Report `i` is task `i`'s: it names that task's file, its kind follows
   * from what decoding that file gave, and a 3-byte BGR image's report
   * carries that image's own score text, whatever the tasks before it did.
   */
  lemma {:induction false} RunAllReport(tasks: seq<Task>, coverage: real, lum: Luminance, decimal: real -> string,
                                        paths: set<string>, i: int)
    requires AllWellFormed(tasks) && 0.0 < coverage <= 1.0 && 0 <= i < |tasks|
    ensures var (file, report) := RunAll(tasks, coverage, lum, decimal, paths).0[i];
            var d := tasks[i].decoded;
            file == tasks[i].file
            && (d == NoImage ==> report == Skipped)
            && (d == ReadFailed || (d.Image? && d.kind == NonByteType) ==> report == Failed)
            && (d.Image? && d.kind == OtherByteType ==> report == NotSupported)
            && (report.Succeeded? || report.SucceededButCantRename? ==> d.Image? && d.kind == ThreeByteBgr)
            && (d.Image? && d.kind == ThreeByteBgr ==>
                  var text := ScoreText(ContrastScore(lum, d.bytes[..], d.width, d.height,
                                                      Truncated(d.height, coverage), Truncated(d.width, coverage)), decimal);
                  report == Succeeded(text) || (report.SucceededButCantRename? && report.scoreText == text))
  {
    SuffixWellFormed(tasks, 1);
    assert tasks[0].decoded.Image? ==> tasks[0].decoded.bytes in Buffers(tasks);
    var (first, next) := RunOutcome(tasks[0].file, tasks[0].decoded, coverage, lum, decimal, paths);
    var rest := RunAll(tasks[1..], coverage, lum, decimal, next).0;
    assert RunAll(tasks, coverage, lum, decimal, paths).0 == [(tasks[0].file, first)] + rest;
    if i == 0 {
      if tasks[0].decoded.Image? && tasks[0].decoded.kind == ThreeByteBgr {
        ScoredOutcome(tasks[0].file, tasks[0].decoded, coverage, lum, decimal, paths);
      }
    } else {
      RunAllReport(tasks[1..], coverage, lum, decimal, next, i - 1);
      assert tasks[1..][i - 1] == tasks[i];
      assert ([(tasks[0].file, first)] + rest)[i] == rest[i - 1];
    }
  }

  /** The tasks from `i` on are well formed, and read no buffer the whole list does not. */
  lemma SuffixWellFormed(tasks: seq<Task>, i: int)
    requires 0 <= i <= |tasks| && AllWellFormed(tasks)
    ensures Buffers(tasks[i..]) <= Buffers(tasks) && AllWellFormed(tasks[i..])
  {
    forall b | b in Buffers(tasks[i..])
      ensures b in Buffers(tasks)
    {
      var j :| 0 <= j < |tasks[i..]| && tasks[i..][j].decoded.Image? && tasks[i..][j].decoded.bytes == b;
      assert tasks[i + j] == tasks[i..][j];
    }
    forall j | 0 <= j < |tasks[i..]|
      ensures WellFormed(tasks[i..][j].decoded)
    {
      assert tasks[i + j] == tasks[i..][j];
    }
  }

  /** One more report appends that report's lines to the log. */
  lemma TrackerLogSnoc(toProcess: int, reports: seq<(string, Report)>, file: string, report: Report)
    requires 1 <= toProcess
    ensures TrackerLog(toProcess, reports + [(file, report)])
            == TrackerLog(toProcess, reports) + ReportLines(toProcess, |reports| + 1, file, report)
  {
    assert (reports + [(file, report)])[..|reports|] == reports;
  }

  /** The loop's state after the first `i` tasks: their reports, the log, the paths. */
  ghost predicate RanSoFar(tasks: seq<Task>, i: int, coverage: real, lum: Luminance, decimal: real -> string,
                           paths: set<string>, lines0: seq<Line>, lines: seq<Line>, reports: seq<(string, Report)>,
                           result: (seq<(string, Report)>, set<string>))
    reads Buffers(tasks)
  {
    if !(0 <= i <= |tasks| && 1 <= |tasks| && |reports| == i && AllWellFormed(tasks) && 0.0 < coverage <= 1.0) then false
    else
      SuffixWellFormed(tasks, i);
      reports + RunAll(tasks[i..], coverage, lum, decimal, paths).0 == result.0
      && RunAll(tasks[i..], coverage, lum, decimal, paths).1 == result.1
      && lines == lines0 + TrackerLog(|tasks|, reports)
  }

  /** One iteration: run task `i`, which makes its report to the tracker. */
  method RunNext(tasks: seq<Task>, i: int, coverage: real, lum: Luminance, decimal: real -> string,
                 fs: FileSystem, progress: ProcessingProgress, ghost lines0: seq<Line>,
                 ghost reports: seq<(string, Report)>, ghost result: (seq<(string, Report)>, set<string>))
    returns (ghost done: seq<(string, Report)>)
    requires i < |tasks| && progress.Valid() && progress.toProcess == |tasks| && progress.processed == i
    requires RanSoFar(tasks, i, coverage, lum, decimal, fs.paths, lines0, progress.out.lines, reports, result)
    modifies fs, progress, progress.out
    ensures progress.Valid() && progress.processed == i + 1
    ensures RanSoFar(tasks, i + 1, coverage, lum, decimal, fs.paths, lines0, progress.out.lines, done, result)
  {
    var t := tasks[i];
    assert tasks[i..][0] == t && tasks[i..][1..] == tasks[i + 1..];
    SuffixWellFormed(tasks, i);
    SuffixWellFormed(tasks, i + 1);
    assert t.decoded.Image? ==> t.decoded.bytes in Buffers(tasks);
    ghost var logged := progress.out.lines;
    ghost var outcome := RunOutcome(t.file, t.decoded, coverage, lum, decimal, fs.paths);
    ghost var rest := RunAll(tasks[i + 1..], coverage, lum, decimal, outcome.1).0;
    Run(t.file, t.decoded, coverage, lum, decimal, fs, progress);
    Associative(reports, [(t.file, outcome.0)], rest);
    TrackerLogSnoc(|tasks|, reports, t.file, outcome.0);
    Associative(lines0, TrackerLog(|tasks|, reports), ReportLines(|tasks|, i + 1, t.file, outcome.0));
    done := reports + [(t.file, outcome.0)];
  }

  /**
   * The fan-out of `process`: a tracker for `|tasks|` images, then the tasks.
   * Standard output receives exactly what the tracker prints for their reports.
   */
  method DispatchAll(tasks: seq<Task>, coverage: real, lum: Luminance, decimal: real -> string,
                     fs: FileSystem, out: Console)
    requires 1 <= |tasks| && AllWellFormed(tasks) && 0.0 < coverage <= 1.0
    modifies fs, out
    ensures var (reports, after) := old(RunAll(tasks, coverage, lum, decimal, fs.paths));
            fs.paths == after && out.lines == old(out.lines) + TrackerLog(|tasks|, reports)
  {
    assert forall b | b in Buffers(tasks) :: allocated(b);
    var progress := new ProcessingProgress(|tasks|, out);
    ghost var result := RunAll(tasks, coverage, lum, decimal, fs.paths);
    assert result == old(RunAll(tasks, coverage, lum, decimal, fs.paths));
    ghost var lines0 := out.lines;
    ghost var reports: seq<(string, Report)> := [];
    var i := 0;
    assert tasks[0..] == tasks && out.lines == lines0 + [];
    while i < |tasks|
      invariant progress.Valid() && progress.toProcess == |tasks| && progress.processed == i && progress.out == out
      invariant RanSoFar(tasks, i, coverage, lum, decimal, fs.paths, lines0, out.lines, reports, result)
    {
      reports := RunNext(tasks, i, coverage, lum, decimal, fs, progress, lines0, reports, result);
      i := i + 1;
    }
    SuffixWellFormed(tasks, i);
    assert tasks[i..] == [];
    assert reports + [] == reports;
    assert reports == result.0;
  }

  // ---------------------------------------------------------------------
  // Restoring names

  /**
   * The restore outcome of every file, each against the paths the files
   * before it left, and the paths after the last one.
   */
  function RestoreRun(files: seq<string>, paths: set<string>): (r: (seq<Result<bool, CantRename>>, set<string>))
    ensures |r.0| == |files|
  {
    if files == [] then ([], paths)
    else
      var (outcome, next) := RestoreStep(paths, files[0]);
      var (outcomes, after) := RestoreRun(files[1..], next);
      ([outcome] + outcomes, after)
  }

  lemma Associative<T>(a: seq<T>, b: seq<T>, c: seq<T>)
    ensures (a + b) + c == a + (b + c)
  {
  }

  /**
   * File `i` is left alone exactly when its name does not match the restore
   * pattern, and a collision names the file's restore target; which files
   * matched does not depend on the paths.
   */
  lemma {:induction false} RestoreRunOutcome(files: seq<string>, paths: set<string>, i: int)
    requires 0 <= i < |files|
    ensures var outcome := RestoreRun(files, paths).0[i];
            (outcome == Ok(false) <==> RestoreTarget(files[i]) == None)
            && (outcome.Err? ==> RestoreTarget(files[i]) == Some(outcome.error.newFilename))
  {
    var (first, next) := RestoreStep(paths, files[0]);
    var rest := RestoreRun(files[1..], next).0;
    assert RestoreRun(files, paths).0 == [first] + rest;
    if i > 0 {
      RestoreRunOutcome(files[1..], next, i - 1);
      assert files[1..][i - 1] == files[i];
      assert ([first] + rest)[i] == rest[i - 1];
    }
  }

  /** How many outcomes are "restored". */
  function CountRestored(outcomes: seq<Result<bool, CantRename>>): nat
  {
    if outcomes == [] then 0
    else CountRestored(outcomes[..|outcomes| - 1]) + (if outcomes[|outcomes| - 1] == Ok(true) then 1 else 0)
  }

  /** How many outcomes are collisions. */
  function CountCollisions(outcomes: seq<Result<bool, CantRename>>): nat
  {
    if outcomes == [] then 0
    else CountCollisions(outcomes[..|outcomes| - 1]) + (if outcomes[|outcomes| - 1].Err? then 1 else 0)
  }

  /** The lines the loop prints: one "Cannot rename" line per collision, in order. */
  function CollisionLines(files: seq<string>, outcomes: seq<Result<bool, CantRename>>): seq<Line>
    requires |outcomes| <= |files|
  {
    if outcomes == [] then []
    else
      var n := |outcomes|;
      CollisionLines(files, outcomes[..n - 1])
      + match outcomes[n - 1]
        case Err(e) => [CannotRestore(Name(files[n - 1]), e.newFilename)]
        case Ok(_) => []
  }

  /**
   * The loop prints one line per collision, and counts another file for every
   * restore that returned true: restored files and collisions together are
   * never more than the files.
   */
  lemma {:induction false} RestoreCounts(files: seq<string>, outcomes: seq<Result<bool, CantRename>>)
    requires |outcomes| <= |files|
    ensures |CollisionLines(files, outcomes)| == CountCollisions(outcomes)
    ensures CountRestored(outcomes) + CountCollisions(outcomes) <= |outcomes|
  {
    if outcomes != [] {
      RestoreCounts(files, outcomes[..|outcomes| - 1]);
    }
  }

  /**
   * Nothing is restored exactly when no restore returned true: every file was
   * left alone or collided.
   */
  lemma {:induction false} NothingRestored(outcomes: seq<Result<bool, CantRename>>)
    ensures CountRestored(outcomes) == 0 <==> forall i :: 0 <= i < |outcomes| ==> outcomes[i] != Ok(true)
  {
    if outcomes != [] {
      var n := |outcomes|;
      NothingRestored(outcomes[..n - 1]);
      if CountRestored(outcomes) == 0 {
        forall i | 0 <= i < n
          ensures outcomes[i] != Ok(true)
        {
          if i < n - 1 {
            assert outcomes[i] == outcomes[..n - 1][i];
          }
        }
      } else if outcomes[n - 1] != Ok(true) {
        var i :| 0 <= i < n - 1 && outcomes[..n - 1][i] == Ok(true);
        assert outcomes[i] == Ok(true);
      }
    }
  }

  /** What one more outcome adds to the count and to the printed lines. */
  lemma OutcomeCounted(files: seq<string>, outcomes: seq<Result<bool, CantRename>>, r: Result<bool, CantRename>)
    requires |outcomes| < |files|
    ensures CountRestored(outcomes + [r]) == CountRestored(outcomes) + (if r == Ok(true) then 1 else 0)
    ensures r.Err? ==> CollisionLines(files, outcomes + [r])
                       == CollisionLines(files, outcomes) + [CannotRestore(Name(files[|outcomes|]), r.error.newFilename)]
    ensures r.Ok? ==> CollisionLines(files, outcomes + [r]) == CollisionLines(files, outcomes)
  {
    assert (outcomes + [r])[..|outcomes|] == outcomes;
    assert CollisionLines(files, outcomes) + [] == CollisionLines(files, outcomes);
  }

  /** The loop's state after the first `i` files: their outcomes, the count, the collision lines, the paths. */
  ghost predicate RestoredSoFar(files: seq<string>, i: int, paths: set<string>, restored: nat,
                                lines0: seq<Line>, lines: seq<Line>, outcomes: seq<Result<bool, CantRename>>,
                                result: (seq<Result<bool, CantRename>>, set<string>))
  {
    0 <= i <= |files| && |outcomes| == i
    && outcomes + RestoreRun(files[i..], paths).0 == result.0 && RestoreRun(files[i..], paths).1 == result.1
    && restored == CountRestored(outcomes) && lines == lines0 + CollisionLines(files, outcomes)
  }

  /** One iteration: restore file `i`, print its collision if any, and count it if restored. */
  method RestoreNext(files: seq<string>, i: int, fs: FileSystem, out: Console, restored: nat,
                     ghost lines0: seq<Line>, ghost outcomes: seq<Result<bool, CantRename>>,
                     ghost result: (seq<Result<bool, CantRename>>, set<string>))
    returns (count: nat, ghost done: seq<Result<bool, CantRename>>)
    requires i < |files| && RestoredSoFar(files, i, fs.paths, restored, lines0, out.lines, outcomes, result)
    modifies fs, out
    ensures RestoredSoFar(files, i + 1, fs.paths, count, lines0, out.lines, done, result)
  {
    ghost var printed := CollisionLines(files, outcomes);
    assert files[i..][1..] == files[i + 1..];
    ghost var rest := RestoreRun(files[i + 1..], RestoreStep(fs.paths, files[i]).1).0;
    var r := RenameRemovingScore(fs, files[i]);
    Associative(outcomes, [r], rest);
    OutcomeCounted(files, outcomes, r);
    done := outcomes + [r];
    count := restored;
    match r {
      case Ok(true) =>
        count := restored + 1;
      case Ok(false) =>
      case Err(e) =>
        var line := CannotRestore(Name(files[i]), e.newFilename);
        out.PrintLine(line);
        Associative(lines0, printed, [line]);
    }
    assert out.lines == lines0 + CollisionLines(files, done);
  }

  /** The restore loop: the number of files restored; collisions are printed as they happen. */
  method RestoreLoop(files: seq<string>, fs: FileSystem, out: Console) returns (restored: nat)
    modifies fs, out
    ensures var (outcomes, after) := old(RestoreRun(files, fs.paths));
            restored == CountRestored(outcomes) && fs.paths == after
            && out.lines == old(out.lines) + CollisionLines(files, outcomes)
  {
    ghost var result := RestoreRun(files, fs.paths);
    ghost var lines0 := out.lines;
    ghost var outcomes: seq<Result<bool, CantRename>> := [];
    restored := 0;
    var i := 0;
    assert files[0..] == files && out.lines == lines0 + [];
    while i < |files|
      invariant RestoredSoFar(files, i, fs.paths, restored, lines0, out.lines, outcomes, result)
    {
      restored, outcomes := RestoreNext(files, i, fs, out, restored, lines0, outcomes, result);
      i := i + 1;
    }
    assert outcomes + [] == outcomes;
  }
}
