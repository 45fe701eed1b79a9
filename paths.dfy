/**
 * Canonical paths and the ancestor walk that `forEachAncestorDirectory` performs.
 * A canonical absolute path is the sequence of its components from the
 * filesystem root; the root itself is the empty sequence.
 */
module Paths {
  import opened Wrappers

  type Path = seq<string>

  const PackageJsonName := "package.json"

  /** `getDirectoryPath`: the parent directory; the root is its own parent. */
  function DirectoryOf(p: Path): (d: Path)
    ensures |d| == if p == [] then 0 else |p| - 1
  {
    if p == [] then [] else p[..|p| - 1]
  }

  /** `combinePaths(directory, "package.json")`. */
  function PackageJsonPath(directory: Path): (p: Path)
    ensures DirectoryOf(p) == directory
    ensures p != [] && p[|p| - 1] == PackageJsonName
  {
    directory + [PackageJsonName]
  }

  /** Distinct directories have distinct package.json paths. */
  lemma PackageJsonPathInjective(d1: Path, d2: Path)
    requires PackageJsonPath(d1) == PackageJsonPath(d2)
    ensures d1 == d2
  {
    assert d1 == DirectoryOf(PackageJsonPath(d1));
  }

  /**
   * The directories `forEachAncestorDirectory(directory, ...)` visits:
   * the directory itself, then each parent, ending with the filesystem root.
   */
  function Ancestors(directory: Path): (r: seq<Path>)
    ensures |r| == |directory| + 1
    decreases |directory|
  {
    if directory == [] then [[]]
    else [directory] + Ancestors(DirectoryOf(directory))
  }

  /** The i-th directory of the walk is `directory` with its last `i` components dropped. */
  lemma {:induction false} AncestorsIndex(directory: Path)
    ensures forall i :: 0 <= i < |directory| + 1 ==> Ancestors(directory)[i] == directory[..|directory| - i]
    decreases |directory|
  {
    if directory != [] {
      var parent := DirectoryOf(directory);
      AncestorsIndex(parent);
      forall i | 0 < i < |directory| + 1 ensures Ancestors(directory)[i] == directory[..|directory| - i] {
        assert Ancestors(directory)[i] == Ancestors(parent)[i - 1];
        assert parent[..|parent| - (i - 1)] == directory[..|directory| - i];
      }
    }
  }

  /** Nearest first: every later directory is strictly closer to the root. */
  ghost predicate NearestFirst(dirs: seq<Path>)
  {
    forall i, j :: 0 <= i < j < |dirs| ==> |dirs[i]| > |dirs[j]|
  }

  lemma AncestorsNearestFirst(directory: Path)
    ensures NearestFirst(Ancestors(directory))
    ensures Ancestors(directory)[0] == directory
    ensures Ancestors(directory)[|directory|] == []
  {
    AncestorsIndex(directory);
    ShrinkingNearestFirst(Ancestors(directory), |directory|);
  }

  /** Paths whose lengths count down one by one are nearest first. */
  lemma ShrinkingNearestFirst(a: seq<Path>, m: nat)
    requires |a| == m + 1 && forall i :: 0 <= i < |a| ==> |a[i]| == m - i
    ensures NearestFirst(a)
  {
  }

  /** The walk from the i-th ancestor is the tail of the walk. */
  lemma AncestorsSuffix(directory: Path, i: nat)
    requires i < |Ancestors(directory)|
    ensures Ancestors(Ancestors(directory)[i]) == Ancestors(directory)[i..]
  {
    var a := Ancestors(directory);
    AncestorsIndex(directory);
    var b := Ancestors(a[i]);
    AncestorsIndex(a[i]);
    assert |b| == |a[i..]|;
    forall k | 0 <= k < |b| ensures b[k] == a[i..][k] {
      assert a[i] == directory[..|directory| - i];
    }
  }

  /** In a nearest-first walk, what comes before step `n` is farther from the root than step `n`. */
  lemma EarlierIsLonger(a: seq<Path>, n: nat, x: Path)
    requires NearestFirst(a) && 0 < n <= |a| && x in a[..n - 1]
    ensures |x| > |a[n - 1]| && x in a[..n]
  {
    var m :| 0 <= m < n - 1 && a[..n - 1][m] == x;
    assert a[m] == a[..n][m];
  }

  /** What a tail holds, the whole sequence holds. */
  lemma TailMembers(a: seq<Path>, i: nat)
    requires i <= |a|
    ensures forall x :: x in a[i..] ==> x in a
  {
    forall x | x in a[i..] ensures x in a {
      var m :| 0 <= m < |a[i..]| && a[i..][m] == x;
      assert a[i + m] == x;
    }
  }

  /** Every tail of `a` is the ancestor walk of its first directory. */
  ghost predicate AncestorClosed(a: seq<Path>)
  {
    forall i {:trigger Ancestors(a[i])} :: 0 <= i < |a| ==> Ancestors(a[i]) == a[i..]
  }

  lemma AncestorsClosed(directory: Path)
    ensures AncestorClosed(Ancestors(directory))
    ensures NearestFirst(Ancestors(directory))
  {
    AncestorsNearestFirst(directory);
    forall i | 0 <= i < |Ancestors(directory)| ensures Ancestors(Ancestors(directory)[i]) == Ancestors(directory)[i..] {
      AncestorsSuffix(directory, i);
    }
  }

  /**
   * The prefix of `dirs` that the walk processes: it stops right after the
   * first directory equal to `root`, or runs to the end when there is none.
   */
  function WalkedDirectories(dirs: seq<Path>, root: Option<Path>): (w: seq<Path>)
    ensures |w| <= |dirs|
    decreases |dirs|
  {
    if dirs == [] then []
    else if root == Some(dirs[0]) then [dirs[0]]
    else [dirs[0]] + WalkedDirectories(dirs[1..], root)
  }

  /**
   * The walk is a prefix of `dirs`; no directory before its last is the root;
   * and it stops early only at the root.
   */
  lemma {:induction false} WalkedShape(dirs: seq<Path>, root: Option<Path>)
    ensures WalkedDirectories(dirs, root) <= dirs
    ensures forall i :: 0 <= i < |WalkedDirectories(dirs, root)| - 1 ==> root != Some(WalkedDirectories(dirs, root)[i])
    ensures |WalkedDirectories(dirs, root)| < |dirs| ==>
      |WalkedDirectories(dirs, root)| > 0 && root == Some(WalkedDirectories(dirs, root)[|WalkedDirectories(dirs, root)| - 1])
    decreases |dirs|
  {
    if dirs != [] && root != Some(dirs[0]) {
      WalkedShape(dirs[1..], root);
      var w := WalkedDirectories(dirs, root);
      var t := WalkedDirectories(dirs[1..], root);
      assert w == [dirs[0]] + t;
      forall i | 0 < i < |w| - 1 ensures root != Some(w[i]) {
        assert w[i] == t[i - 1];
      }
    }
  }

  /** A loop that stopped after the first root, or ran out, walked exactly `WalkedDirectories`. */
  lemma {:induction false} WalkedPrefix(dirs: seq<Path>, root: Option<Path>, n: nat)
    requires n <= |dirs|
    requires forall j :: 0 <= j < n - 1 ==> root != Some(dirs[j])
    requires n == |dirs| || (0 < n && root == Some(dirs[n - 1]))
    ensures WalkedDirectories(dirs, root) == dirs[..n]
    decreases |dirs|
  {
    if dirs != [] && n > 0 && root != Some(dirs[0]) {
      WalkedPrefix(dirs[1..], root, n - 1);
      assert dirs[..n] == [dirs[0]] + dirs[1..][..n - 1];
    }
  }

  /** Without a root directory the walk reaches the filesystem root. */
  lemma NoRootWalksToFilesystemRoot(directory: Path)
    ensures WalkedDirectories(Ancestors(directory), None) == Ancestors(directory)
    ensures WalkedDirectories(Ancestors(directory), None)[|directory|] == []
  {
    WalkedPrefix(Ancestors(directory), None, |directory| + 1);
  }

  /**
   * With a root directory that is an ancestor of `directory`, the walk
   * includes the root and stops there: every directory visited is at least as
   * deep as the root, so no proper ancestor of the root is visited.
   */
  lemma RootBoundaryInclusive(directory: Path, root: Path)
    requires root <= directory
    ensures var w := WalkedDirectories(Ancestors(directory), Some(root));
      && |w| == |directory| - |root| + 1
      && w[|w| - 1] == root
      && (forall i :: 0 <= i < |w| ==> |w[i]| >= |root|)
  {
    var a := Ancestors(directory);
    AncestorsIndex(directory);
    var n := |directory| - |root| + 1;
    assert a[n - 1] == directory[..|root|] == root;
    forall j | 0 <= j < n - 1 ensures Some(root) != Some(a[j]) {
      assert |a[j]| > |root|;
    }
    WalkedPrefix(a, Some(root), n);
  }

  /** A root directory that is not an ancestor is never reached: the walk is full. */
  lemma UnreachedRootWalksEverything(directory: Path, root: Path)
    requires !(root <= directory)
    ensures WalkedDirectories(Ancestors(directory), Some(root)) == Ancestors(directory)
  {
    var a := Ancestors(directory);
    AncestorsIndex(directory);
    forall j | 0 <= j < |a| ensures Some(root) != Some(a[j]) {
      assert a[j] <= directory;
    }
    WalkedPrefix(a, Some(root), |a|);
  }
}
