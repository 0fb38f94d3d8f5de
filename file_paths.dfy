/**
 * The file-name helpers the renamer relies on: `FilenameUtils.removeExtension`
 * and `FilenameUtils.getExtension` (commons-io) and `File.getName`, given the
 * plain definitions those helpers document: the extension is what follows the
 * last '.' that comes after the last separator ('/' or '\\').
 */
module FilePaths {

  predicate IsSeparator(c: char)
  {
    c == '/' || c == '\\'
  }

  predicate IsDot(c: char)
  {
    c == '.'
  }

  predicate IsSlash(c: char)
  {
    c == '/'
  }

  /** Index of the last character of `s` satisfying `p`, or -1 when there is none. */
  function LastIndexWhere(s: string, p: char -> bool): (i: int)
    ensures -1 <= i < |s|
    ensures i >= 0 ==> p(s[i])
  {
    if s == [] then -1
    else if p(s[|s| - 1]) then |s| - 1
    else LastIndexWhere(s[..|s| - 1], p)
  }

  /** No character after the one LastIndexWhere finds satisfies `p`. */
  lemma {:induction false} NoneAfterLast(s: string, p: char -> bool)
    ensures forall j :: LastIndexWhere(s, p) < j < |s| ==> !p(s[j])
  {
    if s != [] && !p(s[|s| - 1]) {
      var t := s[..|s| - 1];
      NoneAfterLast(t, p);
      forall j | LastIndexWhere(s, p) < j < |s|
        ensures !p(s[j])
      {
        if j < |t| {
          assert s[j] == t[j];
        }
      }
    }
  }

  /** `FilenameUtils.indexOfLastSeparator`. */
  function LastSeparator(s: string): int
  {
    LastIndexWhere(s, IsSeparator)
  }

  /** `String.lastIndexOf('.')`. */
  function LastDot(s: string): int
  {
    LastIndexWhere(s, IsDot)
  }

  /**
   * `FilenameUtils.indexOfExtension`: the last '.', unless a separator comes
   * after it, in which case there is no extension (-1).
   */
  function IndexOfExtension(s: string): (i: int)
    ensures -1 <= i < |s|
    ensures i >= 0 ==> s[i] == '.'
  {
    var dot := LastDot(s);
    if LastSeparator(s) > dot then -1 else dot
  }

  /**
   * After the extension's dot there is no other dot and no separator; when
   * there is no extension, no dot follows the last separator.
   */
  lemma ExtensionDotIsLast(s: string)
    ensures var i := IndexOfExtension(s);
            (i >= 0 ==> forall j :: i < j < |s| ==> s[j] != '.' && !IsSeparator(s[j]))
            && (i == -1 ==> forall j :: LastSeparator(s) < j < |s| ==> s[j] != '.')
  {
    NoneAfterLast(s, IsDot);
    NoneAfterLast(s, IsSeparator);
  }

  /** `FilenameUtils.removeExtension`. */
  function RemoveExtension(s: string): string
  {
    var i := IndexOfExtension(s);
    if i == -1 then s else s[..i]
  }

  /** `FilenameUtils.getExtension`: "" when there is no extension. */
  function GetExtension(s: string): string
  {
    var i := IndexOfExtension(s);
    if i == -1 then "" else s[i + 1..]
  }

  /** A text that can follow the extension dot: no dot and no separator. */
  predicate IsExtensionText(e: string)
  {
    forall j :: 0 <= j < |e| ==> e[j] != '.' && !IsSeparator(e[j])
  }

  /** `File.getName`: the characters after the last '/' (all of them when there is none). */
  function Name(path: string): (name: string)
  {
    if path == [] || IsSlash(path[|path| - 1]) then [] else Name(path[..|path| - 1]) + [path[|path| - 1]]
  }

  /** A suffix of a non-empty sequence is that suffix of its front, then its last element. */
  lemma SuffixSnoc<T>(s: seq<T>, k: int)
    requires 0 <= k < |s|
    ensures s[k..] == s[..|s| - 1][k..] + [s[|s| - 1]]
  {
  }

  /** The name is the suffix after the last '/'. */
  lemma {:induction false} NameAfterLastSlash(path: string)
    ensures Name(path) == path[LastIndexWhere(path, IsSlash) + 1..]
  {
    if path != [] && !IsSlash(path[|path| - 1]) {
      var init := path[..|path| - 1];
      NameAfterLastSlash(init);
      var i := LastIndexWhere(init, IsSlash);
      assert LastIndexWhere(path, IsSlash) == i;
      SuffixSnoc(path, i + 1);
    }
  }

  /** A path is its stem, then (when there is one) the dot and its extension; the extension holds no dot or separator. */
  lemma SplitExtension(s: string)
    ensures IsExtensionText(GetExtension(s))
    ensures s == RemoveExtension(s) + (if IndexOfExtension(s) == -1 then "" else "." + GetExtension(s))
  {
    var i := IndexOfExtension(s);
    ExtensionDotIsLast(s);
    if i != -1 {
      assert s == s[..i] + "." + s[i + 1..];
    }
  }

  /** The contract of LastIndexWhere determines its result. */
  lemma LastIndexUnique(s: string, p: char -> bool, i: int)
    requires -1 <= i < |s| && (i >= 0 ==> p(s[i]))
    requires forall j :: i < j < |s| ==> !p(s[j])
    ensures LastIndexWhere(s, p) == i
  {
  }

  lemma LastIndexConcat(a: string, b: string, p: char -> bool)
    ensures LastIndexWhere(a + b, p)
            == if LastIndexWhere(b, p) >= 0 then |a| + LastIndexWhere(b, p) else LastIndexWhere(a, p)
  {
    var ib := LastIndexWhere(b, p);
    var ia := LastIndexWhere(a, p);
    NoneAfterLast(a, p);
    NoneAfterLast(b, p);
    var s := a + b;
    if ib >= 0 {
      assert s[|a| + ib] == b[ib];
      forall j | |a| + ib < j < |s|
        ensures !p(s[j])
      {
        assert s[j] == b[j - |a|];
      }
      LastIndexUnique(s, p, |a| + ib);
    } else {
      forall j | ia < j < |s|
        ensures !p(s[j])
      {
        if j >= |a| {
          assert s[j] == b[j - |a|];
        } else {
          assert s[j] == a[j];
        }
      }
      if ia >= 0 {
        assert s[ia] == a[ia];
      }
      LastIndexUnique(s, p, ia);
    }
  }

  /**
   * Joining a stem and an extension text with a dot gives back that stem and
   * that extension, whatever the stem holds.
   */
  lemma JoinExtension(stem: string, e: string)
    requires IsExtensionText(e)
    ensures IndexOfExtension(stem + "." + e) == |stem|
    ensures RemoveExtension(stem + "." + e) == stem
    ensures GetExtension(stem + "." + e) == e
  {
    var s := stem + "." + e;
    assert s == (stem + ".") + e;
    LastIndexConcat(stem + ".", e, IsDot);
    LastIndexConcat(stem + ".", e, IsSeparator);
    LastIndexConcat(stem, ".", IsDot);
    LastIndexConcat(stem, ".", IsSeparator);
    assert LastIndexWhere(e, IsDot) == -1;
    assert LastIndexWhere(e, IsSeparator) == -1;
    assert s[..|stem|] == stem;
    assert s[|stem| + 1..] == e;
  }

  /**
   * Prefixing a name with a directory part that ends in a separator (or with
   * nothing) does not change where, within the name, its extension starts.
   */
  lemma IndexOfExtensionAfterDirectory(dir: string, name: string)
    requires dir == [] || IsSeparator(dir[|dir| - 1])
    ensures var k := IndexOfExtension(name);
            IndexOfExtension(dir + name) == if k >= 0 then |dir| + k else -1
  {
    LastIndexConcat(dir, name, IsSeparator);
    LastIndexConcat(dir, name, IsDot);
    if dir != [] {
      assert LastIndexWhere(dir, IsSeparator) == |dir| - 1;
      assert LastIndexWhere(dir, IsDot) < |dir| - 1;
    }
  }

  /** ... and so the extension itself is the name's. */
  lemma ExtensionAfterDirectory(dir: string, name: string)
    requires dir == [] || IsSeparator(dir[|dir| - 1])
    ensures GetExtension(dir + name) == GetExtension(name)
  {
    IndexOfExtensionAfterDirectory(dir, name);
    var k := IndexOfExtension(name);
    if k >= 0 {
      assert (dir + name)[|dir| + k + 1..] == name[k + 1..];
    }
  }

  /** Dropping a prefix that ends in a separator keeps the extension. */
  lemma ExtensionAfterPrefix(s: string, k: int)
    requires 0 <= k <= |s| && (k == 0 || IsSeparator(s[k - 1]))
    ensures GetExtension(s[k..]) == GetExtension(s)
  {
    assert s[..k] + s[k..] == s;
    ExtensionAfterDirectory(s[..k], s[k..]);
  }

  /** The extension of a file's name is the extension of its path. */
  lemma ExtensionOfName(path: string)
    ensures GetExtension(Name(path)) == GetExtension(path)
  {
    NameAfterLastSlash(path);
    var k := LastIndexWhere(path, IsSlash) + 1;
    ExtensionAfterPrefix(path, k);
    assert Name(path) == path[k..];
  }
}
