/**
 * The score codec of file names. The forward rename inserts " __", the
 * formatted score and a dot before the extension; the restore rename finds
 * that suffix with the pattern `^.+( __[.\d]+)$` and cuts it off. Both refuse
 * to overwrite a file that already exists.
 */
module FileRenamer {
  import opened Wrappers
  import opened FilePaths
  import ImageContrastEvaluation

  /** The fixed part of the suffix in `"%s __%.4f.%s"`: one space, two underscores. */
  const Marker: string := " __"

  /** CantRenameException, carrying the name that already exists. */
  datatype CantRename = CantRename(newFilename: string)

  // ---------------------------------------------------------------------
  // Forward rename

  predicate IsScoreChar(c: char)
  {
    c == '.' || '0' <= c <= '9'
  }

  /** A non-empty run of digits and dots: what `[.\d]+` accepts. */
  predicate IsScoreText(t: string)
  {
    |t| > 0 && forall j :: 0 <= j < |t| ==> IsScoreChar(t[j])
  }

  /**
   * `%.4f` applied to the score. The digits are produced by `decimal`; Java
   * prints NaN as "NaN" in every locale.
   */
  function ScoreText(score: ImageContrastEvaluation.Score, decimal: real -> string): string
  {
    match score
    case NaN => "NaN"
    case Average(v) => decimal(v)
  }

  /** The name renameAddingScore moves the file to. */
  function AddScoreTarget(path: string, scoreText: string): string
  {
    RemoveExtension(path) + Marker + scoreText + "." + GetExtension(Name(path))
  }

  // ---------------------------------------------------------------------
  // The restore pattern

  /** A Java line terminator: what `.` does not match and what `$` may precede. */
  predicate IsLineTerminator(c: char)
  {
    c == '\n' || c == '\r' || c == '\U{0085}' || c == '\U{2028}' || c == '\U{2029}'
  }

  predicate NoLineTerminator(s: string)
  {
    forall j :: 0 <= j < |s| ==> !IsLineTerminator(s[j])
  }

  /**
   * Where `$` (without MULTILINE) matches in `t`: at the end, before a final
   * line terminator other than the '\n' of a final "\r\n", or before a final "\r\n".
   */
  predicate DollarAt(t: string, e: int)
  {
    e == |t|
    || (0 <= e == |t| - 1 && IsLineTerminator(t[e]) && !(t[e] == '\n' && e > 0 && t[e - 1] == '\r'))
    || (0 <= e == |t| - 2 && t[e] == '\r' && t[e + 1] == '\n')
  }

  /**
   * `^.+( __[.\d]+)$` matches `t` with its group spanning `t[p..e]`: at least
   * one character that is not a line terminator, the marker, a run of digits
   * and dots, then a position where `$` matches.
   */
  ghost predicate MatchesAt(t: string, p: int, e: int)
  {
    1 <= p && p + |Marker| < e <= |t| && NoLineTerminator(t[..p]) && t[p..p + |Marker|] == Marker
    && (forall j :: p + |Marker| <= j < e ==> IsScoreChar(t[j])) && DollarAt(t, e)
  }

  /** The only place a match can end: before a final "\r\n", before another final line terminator, or at the end. */
  function DollarEnd(t: string): (e: int)
    ensures DollarAt(t, e) && 0 <= e <= |t|
  {
    if |t| >= 2 && t[|t| - 2] == '\r' && t[|t| - 1] == '\n' then |t| - 2
    else if |t| >= 1 && IsLineTerminator(t[|t| - 1]) then |t| - 1
    else |t|
  }

  /** Start of the longest run of digits and dots that ends at `k`. */
  function RunStart(t: string, k: int): (q: int)
    requires 0 <= k <= |t|
    ensures 0 <= q <= k
  {
    if k == 0 || !IsScoreChar(t[k - 1]) then k else RunStart(t, k - 1)
  }

  /** The run RunStart finds is all digits and dots, and cannot be extended to the left. */
  lemma {:induction false} RunStartIsLongest(t: string, k: int)
    requires 0 <= k <= |t|
    ensures var q := RunStart(t, k);
            (forall j :: q <= j < k ==> IsScoreChar(t[j])) && (q == 0 || !IsScoreChar(t[q - 1]))
  {
    if k > 0 && IsScoreChar(t[k - 1]) {
      RunStartIsLongest(t, k - 1);
    }
  }

  /** Where the group of the restore pattern starts in `t`, if the pattern matches. */
  function RestoreMatch(t: string): Option<int>
  {
    var e := DollarEnd(t);
    var q := RunStart(t, e);
    if q < e && q >= |Marker| + 1 && t[q - |Marker|..q] == Marker && NoLineTerminator(t[..q - |Marker|])
    then Some(q - |Marker|)
    else None
  }

  /** The text of the pattern's group (`m.group(1)`), if the pattern matches `t`. */
  function MatchGroup(t: string): (g: Option<string>)
    ensures g.Some? ==> |g.value| <= |t|
  {
    match RestoreMatch(t)
    case None => None
    case Some(p) => Some(t[p..DollarEnd(t)])
  }

  /**
   * The name a stem `t` and an extension `ext` are restored to: `t` without
   * as many characters at its end as the group spans, a dot, and `ext`.
   */
  function RestoreName(t: string, ext: string): Option<string>
  {
    match MatchGroup(t)
    case None => None
    case Some(g) => Some(t[..|t| - |g|] + "." + ext)
  }

  /** The name renameRemovingScore moves the file to, or None when the pattern does not match. */
  function RestoreTarget(path: string): Option<string>
  {
    RestoreName(RemoveExtension(path), GetExtension(Name(path)))
  }

  /** What RestoreMatch finds is a match of the pattern. */
  lemma RestoreMatchSound(t: string, p: int)
    requires RestoreMatch(t) == Some(p)
    ensures MatchesAt(t, p, DollarEnd(t))
  {
    RunStartIsLongest(t, DollarEnd(t));
  }

  /** Every match of the pattern is the one RestoreMatch finds: the match, and so the group, is unique. */
  lemma RestoreMatchComplete(t: string, p: int, e: int)
    requires MatchesAt(t, p, e)
    ensures e == DollarEnd(t) && RestoreMatch(t) == Some(p)
  {
    var m := |Marker|;
    assert IsScoreChar(t[e - 1]);
    assert e == DollarEnd(t);
    var q := RunStart(t, e);
    RunStartIsLongest(t, e);
    assert !IsScoreChar(t[p + m - 1]) by {
      assert t[p + m - 1] == Marker[m - 1];
    }
    assert q == p + m;
  }

  // ---------------------------------------------------------------------
  // Round trip of the two names

  /** A stem that ends in the marker and a score text is restored to the part before the marker. */
  lemma RestoreNameAfterMarker(stem: string, scoreText: string, ext: string)
    requires IsScoreText(scoreText) && |stem| >= 1 && NoLineTerminator(stem)
    ensures RestoreName(stem + Marker + scoreText, ext) == Some(stem + "." + ext)
  {
    var t := stem + Marker + scoreText;
    assert MatchesAt(t, |stem|, |t|) by {
      assert t[..|stem|] == stem;
      assert t[|stem|..|stem| + |Marker|] == Marker;
      forall j | |stem| + |Marker| <= j < |t|
        ensures IsScoreChar(t[j])
      {
        assert t[j] == scoreText[j - |stem| - |Marker|];
      }
    }
    RestoreMatchComplete(t, |stem|, |t|);
    assert t[..|stem|] == stem;
  }

  /** The renamed file's stem is the old stem, the marker and the score; its extension is unchanged. */
  lemma AddScoreTargetParts(path: string, scoreText: string)
    ensures var target := AddScoreTarget(path, scoreText);
            RemoveExtension(target) == RemoveExtension(path) + Marker + scoreText
            && GetExtension(Name(target)) == GetExtension(Name(path))
  {
    var ext := GetExtension(Name(path));
    var target := AddScoreTarget(path, scoreText);
    SplitExtension(Name(path));
    JoinExtension(RemoveExtension(path) + Marker + scoreText, ext);
    ExtensionOfName(target);
  }

  /**
   * Restoring a score-renamed file gives back its original name, or that name
   * with a trailing dot when it had no extension, as long as the score text is
   * digits and dots and the original stem is a non-empty line.
   */
  lemma RestoreAfterAddScore(path: string, scoreText: string)
    requires IsScoreText(scoreText)
    requires |RemoveExtension(path)| >= 1 && NoLineTerminator(RemoveExtension(path))
    ensures RestoreTarget(AddScoreTarget(path, scoreText))
            == Some(if IndexOfExtension(path) == -1 then path + "." else path)
  {
    var stem := RemoveExtension(path);
    var ext := GetExtension(Name(path));
    var target := AddScoreTarget(path, scoreText);
    assert RestoreTarget(target) == Some(stem + "." + ext) by {
      AddScoreTargetParts(path, scoreText);
      RestoreNameAfterMarker(stem, scoreText, ext);
    }
    RejoinExtension(path);
  }

  /** A path's stem, a dot and its extension give the path back, with a dot added when it had no extension. */
  lemma RejoinExtension(path: string)
    ensures RemoveExtension(path) + "." + GetExtension(Name(path))
            == if IndexOfExtension(path) == -1 then path + "." else path
  {
    ExtensionOfName(path);
    SplitExtension(path);
  }

  /** A 1x1 image scores NaN, and the name it is given can not be restored. */
  lemma NaNScoreNotRestorable(path: string)
    ensures RestoreTarget(AddScoreTarget(path, "NaN")) == None
  {
    AddScoreTargetParts(path, "NaN");
    var t := RemoveExtension(path) + Marker + "NaN";
    assert DollarEnd(t) == |t|;
    assert RunStart(t, |t|) == |t|;
  }

  /** A run of digits and dots that follows another character starts right after it. */
  lemma {:induction false} RunStartAfter(t: string, k: int, e: int)
    requires 0 < k <= e <= |t| && !IsScoreChar(t[k - 1])
    requires forall j :: k <= j < e ==> IsScoreChar(t[j])
    ensures RunStart(t, e) == k
    decreases e - k
  {
    if e > k {
      RunStartAfter(t, k, e - 1);
    }
  }

  /**
   * `^.+` does not cross a line terminator: a file whose stem holds one is
   * given a score-bearing name that is never restored.
   */
  lemma LineTerminatorStemNotRestorable(path: string, scoreText: string)
    requires IsScoreText(scoreText) && !NoLineTerminator(RemoveExtension(path))
    ensures RestoreTarget(AddScoreTarget(path, scoreText)) == None
  {
    AddScoreTargetParts(path, scoreText);
    var stem := RemoveExtension(path);
    var t := stem + Marker + scoreText;
    var k := |stem| + |Marker|;
    assert t[|t| - 1] == scoreText[|scoreText| - 1];
    assert DollarEnd(t) == |t|;
    forall j | k <= j < |t|
      ensures IsScoreChar(t[j])
    {
      assert t[j] == scoreText[j - k];
    }
    assert t[k - 1] == Marker[|Marker| - 1];
    RunStartAfter(t, k, |t|);
    assert t[..|stem|] == stem;
  }

  // ---------------------------------------------------------------------
  // The file system

  /** The existing paths. `File.renameTo` moves a path when it exists. */
  class FileSystem {
    var paths: set<string>

    constructor (initial: set<string>)
      ensures paths == initial
    {
      paths := initial;
    }

    predicate Exists(path: string)
      reads this
    {
      path in paths
    }

    method RenameTo(from: string, to: string)
      modifies this
      ensures paths == Moved(old(paths), from, to)
    {
      if from in paths {
        paths := paths - {from} + {to};
      }
    }
  }

  /** The paths after moving `from` to `to`; nothing changes when `from` does not exist. */
  function Moved(paths: set<string>, from: string, to: string): set<string>
  {
    if from in paths then paths - {from} + {to} else paths
  }

  /** renameAddingScore on a set of paths: the outcome and the paths afterwards. */
  function AddScoreStep(paths: set<string>, path: string, scoreText: string): (Outcome<CantRename>, set<string>)
  {
    var target := AddScoreTarget(path, scoreText);
    if target in paths then (Fail(CantRename(target)), paths) else (Pass, Moved(paths, path, target))
  }

  /** renameRemovingScore on a set of paths: the outcome and the paths afterwards. */
  function RestoreStep(paths: set<string>, path: string): (Result<bool, CantRename>, set<string>)
  {
    RestoreOutcome(paths, path, RestoreTarget(path))
  }

  /** renameRemovingScore once the name to restore to (if any) is known. */
  function RestoreOutcome(paths: set<string>, path: string, target: Option<string>): (Result<bool, CantRename>, set<string>)
  {
    match target
    case None => (Ok(false), paths)
    case Some(target) =>
      if target in paths then (Err(CantRename(target)), paths) else (Ok(true), Moved(paths, path, target))
  }

  /**
   * renameAddingScore: when the target exists, fails with that target's name
   * and changes nothing; otherwise moves the file to the target.
   */
  method RenameAddingScore(fs: FileSystem, path: string, scoreText: string) returns (r: Outcome<CantRename>)
    modifies fs
    ensures (r, fs.paths) == AddScoreStep(old(fs.paths), path, scoreText)
  {
    var newFilename := AddScoreTarget(path, scoreText);
    if fs.Exists(newFilename) {
      return Fail(CantRename(newFilename));
    }
    fs.RenameTo(path, newFilename);
    return Pass;
  }

  /**
   * renameRemovingScore: false and no change when the pattern does not match;
   * a failure with the target's name and no change when the target exists;
   * otherwise the file is moved and the answer is true.
   */
  method RenameRemovingScore(fs: FileSystem, path: string) returns (r: Result<bool, CantRename>)
    modifies fs
    ensures (r, fs.paths) == RestoreStep(old(fs.paths), path)
  {
    var filenameWithoutExtension := RemoveExtension(path);
    var m := MatchGroup(filenameWithoutExtension);
    if m.None? {
      return Ok(false);
    }
    var filenameExtension := GetExtension(Name(path));
    var newFilename := filenameWithoutExtension[..|filenameWithoutExtension| - |m.value|] + "." + filenameExtension;
    if fs.Exists(newFilename) {
      return Err(CantRename(newFilename));
    }
    fs.RenameTo(path, newFilename);
    return Ok(true);
  }

  /** Moving a file to a free name and restoring it from there gives back the set of paths. */
  lemma MoveBack(paths: set<string>, path: string, target: string)
    requires path in paths && target !in paths && path != target
    ensures RestoreOutcome(Moved(paths, path, target), target, Some(path)) == (Ok(true), paths)
  {
    assert Moved(Moved(paths, path, target), target, path) == paths;
  }

  /** A name with an extension grows by the marker and the score text. */
  lemma AddScoreTargetLength(path: string, scoreText: string)
    requires IndexOfExtension(path) != -1
    ensures |AddScoreTarget(path, scoreText)| == |path| + |Marker| + |scoreText|
  {
    SplitExtension(path);
    ExtensionOfName(path);
  }

  /**
   * On the file system: renaming an existing file with an extension by its
   * score, then restoring the renamed file, leaves exactly the paths there
   * were before, when neither target was taken.
   */
  lemma RenameRoundTrip(paths: set<string>, path: string, scoreText: string)
    requires path in paths && IndexOfExtension(path) != -1
    requires IsScoreText(scoreText)
    requires |RemoveExtension(path)| >= 1 && NoLineTerminator(RemoveExtension(path))
    requires AddScoreTarget(path, scoreText) !in paths
    ensures var (added, afterAdd) := AddScoreStep(paths, path, scoreText);
            var (restored, afterRestore) := RestoreStep(afterAdd, AddScoreTarget(path, scoreText));
            added == Pass && restored == Ok(true) && afterRestore == paths
  {
    var target := AddScoreTarget(path, scoreText);
    RestoreAfterAddScore(path, scoreText);
    AddScoreTargetLength(path, scoreText);
    MoveBack(paths, path, target);
  }
}
