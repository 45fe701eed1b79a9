/**
 * The package.json cache the project service consults: for each directory a
 * tri-state answer to "does it hold a package.json?" and, for directories that
 * do, the parsed file. Its implementation is not part of this model; this
 * module is an abstract cache with the behaviour the project service relies on.
 */
module PackageJsonCache {
  import opened Wrappers
  import opened Paths

  /** The cache's answer for a directory; `Maybe` means not yet searched. */
  datatype Ternary = True | False | Maybe

  /** A parsed package.json: where it lives and its (opaque) content. */
  datatype PackageJsonInfo = PackageJsonInfo(fileName: Path, content: string)

  /** What the cache reads from the host: the package.json files that exist, with their contents. */
  class HostFileSystem {
    var packageJsonFiles: map<Path, string>

    constructor (files: map<Path, string>)
      ensures packageJsonFiles == files
    {
      packageJsonFiles := files;
    }
  }

  /**
   * The cache's contents. `status` maps a searched directory to whether it has
   * a package.json (a directory missing from it is `Maybe`); `infos` maps a
   * directory to its parsed package.json.
   */
  datatype CacheState = CacheState(status: map<Path, bool>, infos: map<Path, PackageJsonInfo>)

  /** Only directories known to hold a package.json have info, and the info lives in that directory. */
  ghost predicate ValidState(st: CacheState)
  {
    forall d :: d in st.infos ==> d in st.status && st.status[d] && DirectoryOf(st.infos[d].fileName) == d
  }

  /** `directoryHasPackageJson`. */
  function StatusOf(st: CacheState, directory: Path): Ternary
  {
    if directory !in st.status then Maybe
    else if st.status[directory] then True
    else False
  }

  /** `getInDirectory`. */
  function InfoOf(st: CacheState, directory: Path): Option<PackageJsonInfo>
  {
    if directory in st.infos then Some(st.infos[directory]) else None
  }

  /** The entry for `directory` says what the disk holds. */
  ghost predicate MatchesDisk(st: CacheState, directory: Path, files: map<Path, string>)
  {
    var p := PackageJsonPath(directory);
    && StatusOf(st, directory) == (if p in files then True else False)
    && InfoOf(st, directory) == (if p in files then Some(PackageJsonInfo(p, files[p])) else None)
  }

  /**
   * `after` differs from `before` only by resolving unknown directories of
   * `scope`, each from the disk; every entry already resolved is unchanged.
   */
  ghost predicate Extends(before: CacheState, after: CacheState, files: map<Path, string>, scope: seq<Path>)
  {
    && (forall d :: StatusOf(before, d) != Maybe ==>
          StatusOf(after, d) == StatusOf(before, d) && InfoOf(after, d) == InfoOf(before, d))
    && (forall d :: StatusOf(before, d) == Maybe && StatusOf(after, d) != Maybe ==>
          d in scope && MatchesDisk(after, d, files))
    && (forall d :: StatusOf(before, d) == Maybe && StatusOf(after, d) == Maybe ==>
          InfoOf(after, d) == None)
  }

  /** Only the entry of `directory` may differ between `before` and `after`. */
  ghost predicate SameExcept(before: CacheState, after: CacheState, directory: Path)
  {
    forall d :: d != directory ==>
      StatusOf(after, d) == StatusOf(before, d) && InfoOf(after, d) == InfoOf(before, d)
  }

  lemma ExtendsReflexive(st: CacheState, files: map<Path, string>, scope: seq<Path>)
    requires ValidState(st)
    ensures Extends(st, st, files, scope)
  {
  }

  /** An extension within `scope` is an extension within any wider scope. */
  lemma ExtendsWiden(before: CacheState, after: CacheState, files: map<Path, string>, scope: seq<Path>, wider: seq<Path>)
    requires Extends(before, after, files, scope)
    requires forall d :: d in scope ==> d in wider
    ensures Extends(before, after, files, wider)
  {
  }

  /** Two successive extensions within `scope` are one extension within it. */
  lemma ExtendsChain(a: CacheState, b: CacheState, c: CacheState, files: map<Path, string>, scope: seq<Path>)
    requires Extends(a, b, files, scope) && Extends(b, c, files, scope)
    ensures Extends(a, c, files, scope)
  {
    forall d | StatusOf(a, d) == Maybe && StatusOf(c, d) != Maybe
      ensures d in scope && MatchesDisk(c, d, files)
    {
      if StatusOf(b, d) != Maybe {
        assert MatchesDisk(b, d, files);
      }
    }
  }

  /** One step of the ancestor search: look for `directory`'s package.json on disk. */
  function Resolve(st: CacheState, directory: Path, files: map<Path, string>): CacheState
  {
    var p := PackageJsonPath(directory);
    if p in files then CacheState(st.status[directory := true], st.infos[directory := PackageJsonInfo(p, files[p])])
    else CacheState(st.status[directory := false], st.infos)
  }

  /**
   * `searchDirectoryAndAncestors`: resolve the directories of `dirs` in order,
   * stopping at the first one already resolved.
   */
  function ScanFrom(dirs: seq<Path>, st: CacheState, files: map<Path, string>): CacheState
    decreases |dirs|
  {
    if dirs == [] || dirs[0] in st.status then st
    else ScanFrom(dirs[1..], Resolve(st, dirs[0], files), files)
  }

  /** Resolving a directory keeps the cache valid and records what the disk holds for it. */
  lemma ResolveValid(st: CacheState, directory: Path, files: map<Path, string>)
    requires ValidState(st) && StatusOf(st, directory) == Maybe
    ensures ValidState(Resolve(st, directory, files))
    ensures MatchesDisk(Resolve(st, directory, files), directory, files)
  {
  }

  /** Resolving an unknown directory changes nothing else. */
  lemma ResolveExtends(st: CacheState, directory: Path, files: map<Path, string>)
    requires ValidState(st) && StatusOf(st, directory) == Maybe
    ensures ValidState(Resolve(st, directory, files))
    ensures Extends(st, Resolve(st, directory, files), files, [directory])
  {
    ResolveValid(st, directory, files);
    var r := Resolve(st, directory, files);
    forall d | StatusOf(st, d) == Maybe && StatusOf(r, d) != Maybe ensures d in [directory] && MatchesDisk(r, d, files) {
      assert d == directory;
    }
  }

  /**
   * A search leaves the cache valid, only resolves directories of the walk from
   * the disk, and always resolves the directory it starts from.
   */
  lemma {:induction false} ScanFromExtends(dirs: seq<Path>, st: CacheState, files: map<Path, string>)
    requires ValidState(st)
    ensures ValidState(ScanFrom(dirs, st, files))
    ensures Extends(st, ScanFrom(dirs, st, files), files, dirs)
    ensures dirs != [] ==> StatusOf(ScanFrom(dirs, st, files), dirs[0]) != Maybe
    decreases |dirs|
  {
    if dirs == [] || dirs[0] in st.status {
      ExtendsReflexive(st, files, dirs);
    } else {
      var st1 := Resolve(st, dirs[0], files);
      ResolveExtends(st, dirs[0], files);
      ScanFromExtends(dirs[1..], st1, files);
      ExtendsWiden(st, st1, files, [dirs[0]], dirs);
      ExtendsWiden(st1, ScanFrom(dirs, st, files), files, dirs[1..], dirs);
      ExtendsChain(st, st1, ScanFrom(dirs, st, files), files, dirs);
    }
  }

  /** A search from an unknown directory resolves it, then goes on from its parent. */
  lemma ScanFromStep(dirs: seq<Path>, st: CacheState, files: map<Path, string>)
    requires dirs != [] && dirs[0] !in st.status
    ensures ScanFrom(dirs, st, files) == ScanFrom(dirs[1..], Resolve(st, dirs[0], files), files)
  {
  }

  /** A search always resolves the directory it starts from. */
  lemma {:induction false} ScanFromResolvesFirst(dirs: seq<Path>, st: CacheState, files: map<Path, string>)
    requires dirs != []
    ensures dirs[0] in ScanFrom(dirs, st, files).status
    decreases |dirs|
  {
    if dirs[0] !in st.status && |dirs| > 1 {
      ScanFromResolvesFirst(dirs[1..], Resolve(st, dirs[0], files), files);
      ScanFromKeeps(dirs[1..], Resolve(st, dirs[0], files), files, dirs[0]);
    }
  }

  /** A search never forgets a directory that was already resolved. */
  lemma {:induction false} ScanFromKeeps(dirs: seq<Path>, st: CacheState, files: map<Path, string>, d: Path)
    requires d in st.status
    ensures d in ScanFrom(dirs, st, files).status
    decreases |dirs|
  {
    if dirs != [] && dirs[0] !in st.status {
      ScanFromKeeps(dirs[1..], Resolve(st, dirs[0], files), files, d);
    }
  }

  /** When nothing on the walk is known yet, one search resolves every directory of it. */
  lemma {:induction false} ScanFromResolvesAll(dirs: seq<Path>, st: CacheState, files: map<Path, string>)
    requires ValidState(st)
    requires NearestFirst(dirs)
    requires forall i :: 0 <= i < |dirs| ==> StatusOf(st, dirs[i]) == Maybe
    ensures forall i :: 0 <= i < |dirs| ==> StatusOf(ScanFrom(dirs, st, files), dirs[i]) != Maybe
    decreases |dirs|
  {
    if dirs != [] {
      var st1 := Resolve(st, dirs[0], files);
      ResolveExtends(st, dirs[0], files);
      forall i | 0 <= i < |dirs[1..]| ensures StatusOf(st1, dirs[1..][i]) == Maybe {
        assert dirs[1..][i] == dirs[i + 1] != dirs[0];
      }
      ScanFromResolvesAll(dirs[1..], st1, files);
      ScanFromExtends(dirs[1..], st1, files);
    }
  }

  /** The cache object (`packageJsonCache`). */
  class Cache {
    const host: HostFileSystem
    var status: map<Path, bool>
    var infos: map<Path, PackageJsonInfo>

    ghost function State(): CacheState
      reads this
    {
      CacheState(status, infos)
    }

    ghost predicate Valid()
      reads this
    {
      ValidState(State())
    }

    /** An empty cache over the given host. */
    constructor (host: HostFileSystem)
      ensures this.host == host && Valid()
      ensures forall d :: StatusOf(State(), d) == Maybe && InfoOf(State(), d) == None
    {
      this.host := host;
      status := map[];
      infos := map[];
    }

    function DirectoryHasPackageJson(directory: Path): (t: Ternary)
      reads this
      ensures t == StatusOf(State(), directory)
    {
      if directory !in status then Maybe
      else if status[directory] then True
      else False
    }

    function GetInDirectory(directory: Path): (r: Option<PackageJsonInfo>)
      reads this
      ensures r == InfoOf(State(), directory)
    {
      if directory in infos then Some(infos[directory]) else None
    }

    /**
     * `searchDirectoryAndAncestors`: afterwards `directory` is no longer `Maybe`,
     * and only unknown directories on its ancestor walk were resolved, from the disk.
     */
    method SearchDirectoryAndAncestors(directory: Path)
      requires Valid()
      modifies this
      ensures Valid()
      ensures State() == ScanFrom(Ancestors(directory), old(State()), host.packageJsonFiles)
      ensures StatusOf(State(), directory) != Maybe
    {
      var dirs := Ancestors(directory);
      var files := host.packageJsonFiles;
      ghost var st0 := State();
      var i := 0;
      while i < |dirs| && dirs[i] !in status
        invariant 0 <= i <= |dirs|
        invariant ValidState(State())
        invariant ScanFrom(dirs, st0, files) == ScanFrom(dirs[i..], State(), files)
        decreases |dirs| - i
      {
        ghost var before := State();
        var next := Resolve(CacheState(status, infos), dirs[i], files);
        status, infos := next.status, next.infos;
        ResolveValid(before, dirs[i], files);
        ScanFromStep(dirs[i..], before, files);
        assert dirs[i..][1..] == dirs[i + 1..];
        i := i + 1;
      }
      AncestorsNearestFirst(directory);
      ScanFromResolvesFirst(dirs, st0, files);
    }

    /**
     * `addOrUpdate`: re-read the package.json `fileName`; its directory is
     * recorded from the disk (a file that cannot be read counts as absent).
     * Every other directory is unchanged.
     */
    method AddOrUpdate(fileName: Path)
      requires Valid()
      modifies this
      ensures Valid()
      ensures StatusOf(State(), DirectoryOf(fileName)) == (if fileName in host.packageJsonFiles then True else False)
      ensures InfoOf(State(), DirectoryOf(fileName)) ==
        (if fileName in host.packageJsonFiles then Some(PackageJsonInfo(fileName, host.packageJsonFiles[fileName])) else None)
      ensures SameExcept(old(State()), State(), DirectoryOf(fileName))
    {
      var directory := DirectoryOf(fileName);
      if fileName in host.packageJsonFiles {
        status := status[directory := true];
        infos := infos[directory := PackageJsonInfo(fileName, host.packageJsonFiles[fileName])];
      } else {
        status := status[directory := false];
        infos := infos - {directory};
      }
    }

    /** `delete`: forget the directory of `fileName`, which becomes `Maybe` again. */
    method Delete(fileName: Path)
      requires Valid()
      modifies this
      ensures Valid()
      ensures StatusOf(State(), DirectoryOf(fileName)) == Maybe
      ensures InfoOf(State(), DirectoryOf(fileName)) == None
      ensures SameExcept(old(State()), State(), DirectoryOf(fileName))
    {
      var directory := DirectoryOf(fileName);
      status := status - {directory};
      infos := infos - {directory};
    }
  }
}
