/**
 * The project service of src/5_0/projectService.ts: the package.json
 * lookup along a file's ancestor directories, the registry of package.json
 * watchers, and the invalidation broadcast to every registered project.
 */
module ProjectService {
  import opened Wrappers
  import opened OrderedSets
  import opened Paths
  import opened PackageJsonCache
  import opened Types

  /** `PackageJsonAutoImportPreference`. */
  datatype PackageJsonAutoImportPreference = Off | On | Auto

  /** `UserPreferences`: the auto-import option and the preferences this model does not read. */
  datatype UserPreferences = UserPreferences(
    includePackageJsonAutoImports: Option<string>,
    otherPreferences: map<string, string>)

  /** `hostConfiguration`: an object shared by reference, whose `preferences` are reassigned. */
  class HostConfiguration {
    var preferences: UserPreferences

    constructor (preferences: UserPreferences)
      ensures this.preferences == preferences
    {
      this.preferences := preferences;
    }
  }

  /** `options.watchFactory`: either the no-op factory or one supplied by the host. */
  datatype WatchFactory = NoopWatchFactory | HostWatchFactory

  datatype ProjectServiceOptions = ProjectServiceOptions(watchFactory: Option<WatchFactory>)

  /** A watcher handle: the shared no-op watcher, or a host watcher on one file. */
  datatype FileWatcher = NoopWatcher | HostWatcher(file: Path)

  /** `PollingInterval.Low`, the interval package.json files are polled at. */
  const PollingIntervalLow := 250

  datatype FileWatcherEventKind = Created | Changed | Deleted

  /** What a watcher callback does: return normally, or throw. */
  datatype Outcome = Pass | Fail(message: string)

  const ExpectedToExistMessage := "Expected package.json to exist already"

  /**
   * A project as this core sees it: its service, its language service, whether
   * it has an auto-import provider host, and the real-path keys of its symlink
   * cache when it has one. Projects are compared by identity.
   */
  class Project {
    const projectService: ProjectService
    const languageService: LanguageService
    const hasAutoImportProviderHost: bool
    const symlinkedDirectoriesByRealpath: Option<seq<string>>

    constructor (projectService: ProjectService, languageService: LanguageService,
                 hasAutoImportProviderHost: bool, symlinkedDirectoriesByRealpath: Option<seq<string>>)
      ensures this.projectService == projectService
      ensures this.languageService == languageService
      ensures this.hasAutoImportProviderHost == hasAutoImportProviderHost
      ensures this.symlinkedDirectoriesByRealpath == symlinkedDirectoriesByRealpath
    {
      this.projectService := projectService;
      this.languageService := languageService;
      this.hasAutoImportProviderHost := hasAutoImportProviderHost;
      this.symlinkedDirectoriesByRealpath := symlinkedDirectoriesByRealpath;
    }
  }

  /** The calls this core makes into code outside it, in the order it makes them. */
  datatype Effect =
    | PackageJsonChanged(project: Project, path: Path)    // project.onPackageJsonChange(path)
    | AutoImportProviderSettingsChanged(project: Project) // project.onAutoImportProviderSettingsChanged()
    | MarkedAsDirty(project: Project)                     // project.autoImportProviderHost.markAsDirty()
    | WatchStarted(file: Path, pollingInterval: nat)      // watchFactory.watchFile(file, ..., pollingInterval)
    | WatcherClosed(file: Path)                           // watcher.close()

  class EffectLog {
    var effects: seq<Effect>

    constructor ()
      ensures effects == []
    {
      effects := [];
    }
  }

  /** Is `e` a call to one of `project`'s hooks? */
  predicate IsHookOn(e: Effect, project: Project)
  {
    match e
    case PackageJsonChanged(p, _) => p == project
    case AutoImportProviderSettingsChanged(p) => p == project
    case MarkedAsDirty(p) => p == project
    case _ => false
  }

  /** The number of hook calls on `project` in `effects`. */
  function CallsTo(effects: seq<Effect>, project: Project): nat
    decreases |effects|
  {
    if effects == [] then 0
    else CallsTo(effects[..|effects| - 1], project) + (if IsHookOn(effects[|effects| - 1], project) then 1 else 0)
  }

  lemma {:induction false} CallsToConcat(a: seq<Effect>, b: seq<Effect>, project: Project)
    ensures CallsTo(a + b, project) == CallsTo(a, project) + CallsTo(b, project)
    decreases |b|
  {
    if b == [] {
      assert a + b == a;
    } else {
      assert (a + b)[..|a + b| - 1] == a + b[..|b| - 1];
      assert (a + b)[|a + b| - 1] == b[|b| - 1];
      CallsToConcat(a, b[..|b| - 1], project);
    }
  }

  /** The hook `invalidateProjectPackageJson` calls on one project. */
  function InvalidationHook(project: Project, packageJsonPath: Option<Path>): Effect
  {
    if packageJsonPath.Some? then PackageJsonChanged(project, packageJsonPath.value)
    else AutoImportProviderSettingsChanged(project)
  }

  /**
   * The calls `invalidateProjectPackageJson(packageJsonPath)` makes: one hook per
   * project, in the set's order; the path hook when there is a path, the
   * settings hook otherwise.
   */
  function Broadcast(projects: seq<Project>, packageJsonPath: Option<Path>): (r: seq<Effect>)
    ensures |r| == |projects|
    decreases |projects|
  {
    if projects == [] then []
    else Broadcast(projects[..|projects| - 1], packageJsonPath) + [InvalidationHook(projects[|projects| - 1], packageJsonPath)]
  }

  /**
   * The i-th call goes to the i-th project: the path hook with that path when
   * there is a path, the settings hook otherwise.
   */
  lemma {:induction false} BroadcastPointwise(projects: seq<Project>, packageJsonPath: Option<Path>)
    ensures forall i :: 0 <= i < |projects| ==> IsHookOn(Broadcast(projects, packageJsonPath)[i], projects[i])
    ensures forall i :: 0 <= i < |projects| ==>
      Broadcast(projects, packageJsonPath)[i] == InvalidationHook(projects[i], packageJsonPath)
    decreases |projects|
  {
    if projects != [] {
      BroadcastPointwise(projects[..|projects| - 1], packageJsonPath);
    }
  }

  /** Every registered project gets exactly one hook call; no other project gets any. */
  lemma {:induction false} BroadcastExactlyOnce(projects: seq<Project>, packageJsonPath: Option<Path>, project: Project)
    requires Distinct(projects)
    ensures CallsTo(Broadcast(projects, packageJsonPath), project) == if project in projects then 1 else 0
    decreases |projects|
  {
    if projects != [] {
      var init := projects[..|projects| - 1];
      BroadcastExactlyOnce(init, packageJsonPath, project);
      CallsToConcat(Broadcast(init, packageJsonPath), [InvalidationHook(projects[|projects| - 1], packageJsonPath)], project);
      assert [InvalidationHook(projects[|projects| - 1], packageJsonPath)][..0] == [];
      assert project in projects <==> project in init || project == projects[|projects| - 1];
      assert project == projects[|projects| - 1] ==> project !in init;
    }
  }

  /** The handle `watchFactory.watchFile` returns for `file`. */
  function WatcherFor(file: Path, factory: WatchFactory): (w: FileWatcher)
    ensures w.HostWatcher? <==> factory.HostWatchFactory?
    ensures w.HostWatcher? ==> w.file == file
  {
    if factory == NoopWatchFactory then NoopWatcher else HostWatcher(file)
  }

  /** The calls `watchFactory.watchFile(file, ...)` makes: none for the no-op factory. */
  function WatchEffects(file: Path, factory: WatchFactory): (r: seq<Effect>)
    ensures r == [] <==> factory == NoopWatchFactory
    ensures forall k :: 0 <= k < |r| ==> r[k] == WatchStarted(file, PollingIntervalLow)
  {
    if factory == NoopWatchFactory then [] else [WatchStarted(file, PollingIntervalLow)]
  }

  /** The calls `watcher.close()` makes: none for the no-op watcher. */
  function CloseEffects(watcher: FileWatcher): seq<Effect>
  {
    if watcher.HostWatcher? then [WatcherClosed(watcher.file)] else []
  }

  /** The watcher map after `watchPackageJsonFile(path)`. */
  function Registered(watchers: map<Path, FileWatcher>, path: Path, factory: WatchFactory): (r: map<Path, FileWatcher>)
    ensures path in r
  {
    if path in watchers then watchers else watchers[path := WatcherFor(path, factory)]
  }

  /** Registering adds `path` and nothing else, keeps existing handles, and opens a handle only for a new path. */
  lemma RegisteredContents(watchers: map<Path, FileWatcher>, path: Path, factory: WatchFactory)
    ensures Registered(watchers, path, factory).Keys == watchers.Keys + {path}
    ensures forall p :: p in watchers ==> Registered(watchers, path, factory)[p] == watchers[p]
    ensures path !in watchers ==> Registered(watchers, path, factory)[path] == WatcherFor(path, factory)
  {
  }

  /** The calls `watchPackageJsonFile(path)` makes: a broadcast and a watch, only for a new path. */
  function RegistrationEffects(watchers: map<Path, FileWatcher>, path: Path, projects: seq<Project>,
                               factory: WatchFactory): (r: seq<Effect>)
    ensures path in watchers ==> r == []
    ensures path !in watchers ==> |r| == |projects| + (if factory == NoopWatchFactory then 0 else 1)
  {
    if path in watchers then [] else Broadcast(projects, Some(path)) + WatchEffects(path, factory)
  }

  /**
   * Registration is idempotent: a path already registered adds no entry and
   * makes no call; a new path adds exactly one entry.
   */
  lemma RegistrationIdempotent(watchers: map<Path, FileWatcher>, path: Path, projects: seq<Project>, factory: WatchFactory)
    ensures Registered(Registered(watchers, path, factory), path, factory) == Registered(watchers, path, factory)
    ensures RegistrationEffects(Registered(watchers, path, factory), path, projects, factory) == []
    ensures |Registered(watchers, path, factory)| == |watchers| + (if path in watchers then 0 else 1)
  {
    if path !in watchers {
      assert Registered(watchers, path, factory).Keys == watchers.Keys + {path};
    }
  }

  /** A new path is announced to each registered project exactly once. */
  lemma RegistrationBroadcastsOnce(watchers: map<Path, FileWatcher>, path: Path, projects: seq<Project>,
                                   factory: WatchFactory, project: Project)
    requires Distinct(projects) && path !in watchers
    ensures CallsTo(RegistrationEffects(watchers, path, projects, factory), project) == if project in projects then 1 else 0
  {
    BroadcastExactlyOnce(projects, Some(path), project);
    CallsToConcat(Broadcast(projects, Some(path)), WatchEffects(path, factory), project);
    if factory != NoopWatchFactory {
      assert WatchEffects(path, factory)[..0] == [];
      assert CallsTo(WatchEffects(path, factory), project) == 0;
    }
  }

  /** The watcher map after registering each of `paths` in turn. */
  function RegisterAll(watchers: map<Path, FileWatcher>, paths: seq<Path>, factory: WatchFactory): map<Path, FileWatcher>
    decreases |paths|
  {
    if paths == [] then watchers
    else Registered(RegisterAll(watchers, paths[..|paths| - 1], factory), paths[|paths| - 1], factory)
  }

  /** The calls made while registering each of `paths` in turn. */
  function RegisterAllEffects(watchers: map<Path, FileWatcher>, paths: seq<Path>, projects: seq<Project>,
                              factory: WatchFactory): seq<Effect>
    decreases |paths|
  {
    if paths == [] then []
    else RegisterAllEffects(watchers, paths[..|paths| - 1], projects, factory)
         + RegistrationEffects(RegisterAll(watchers, paths[..|paths| - 1], factory), paths[|paths| - 1], projects, factory)
  }

  /** After registering `paths`, exactly the old paths and `paths` are watched; old handles are kept. */
  lemma {:induction false} RegisterAllContents(watchers: map<Path, FileWatcher>, paths: seq<Path>, factory: WatchFactory)
    ensures forall p :: p in RegisterAll(watchers, paths, factory) <==> p in watchers || p in paths
    ensures forall p :: p in watchers ==> RegisterAll(watchers, paths, factory)[p] == watchers[p]
    ensures forall p :: p in paths && p !in watchers ==> RegisterAll(watchers, paths, factory)[p] == WatcherFor(p, factory)
    decreases |paths|
  {
    if paths != [] {
      RegisterAllContents(watchers, paths[..|paths| - 1], factory);
      assert forall p :: p in paths <==> p in paths[..|paths| - 1] || p == paths[|paths| - 1];
    }
  }

  /** The package.json paths of the directories of `dirs` in state `True`, in order. */
  function TruePaths(dirs: seq<Path>, st: CacheState): seq<Path>
    decreases |dirs|
  {
    if dirs == [] then []
    else TruePaths(dirs[..|dirs| - 1], st)
         + (if StatusOf(st, dirs[|dirs| - 1]) == True then [PackageJsonPath(dirs[|dirs| - 1])] else [])
  }

  /** The infos of the directories of `dirs` in state `True` that have one, in order. */
  function Collect(dirs: seq<Path>, st: CacheState): seq<PackageJsonInfo>
    decreases |dirs|
  {
    if dirs == [] then []
    else Collect(dirs[..|dirs| - 1], st)
         + (var d := dirs[|dirs| - 1];
            if StatusOf(st, d) == True && InfoOf(st, d).Some? then [InfoOf(st, d).value] else [])
  }

  /** The listed paths are exactly the package.json paths of the `True` directories of `dirs`. */
  lemma {:induction false} TruePathsMembership(dirs: seq<Path>, st: CacheState)
    ensures forall k :: 0 <= k < |TruePaths(dirs, st)| ==>
      DirectoryOf(TruePaths(dirs, st)[k]) in dirs &&
      StatusOf(st, DirectoryOf(TruePaths(dirs, st)[k])) == True &&
      TruePaths(dirs, st)[k] == PackageJsonPath(DirectoryOf(TruePaths(dirs, st)[k]))
    ensures forall i :: 0 <= i < |dirs| && StatusOf(st, dirs[i]) == True ==> PackageJsonPath(dirs[i]) in TruePaths(dirs, st)
    decreases |dirs|
  {
    if dirs != [] {
      var init := dirs[..|dirs| - 1];
      TruePathsMembership(init, st);
      var r := TruePaths(dirs, st);
      var r0 := TruePaths(init, st);
      assert forall k :: 0 <= k < |r0| ==> r[k] == r0[k];
      forall i | 0 <= i < |dirs| && StatusOf(st, dirs[i]) == True
        ensures PackageJsonPath(dirs[i]) in r
      {
        if i < |init| {
          assert init[i] == dirs[i];
        }
      }
    }
  }

  /** Along a nearest-first walk no package.json path is listed twice. */
  lemma {:induction false} TruePathsDistinct(dirs: seq<Path>, st: CacheState)
    requires NearestFirst(dirs)
    ensures Distinct(TruePaths(dirs, st))
    decreases |dirs|
  {
    if dirs != [] {
      var init := dirs[..|dirs| - 1];
      var last := dirs[|dirs| - 1];
      TruePathsDistinct(init, st);
      TruePathsMembership(init, st);
      var r0 := TruePaths(init, st);
      forall k | 0 <= k < |r0| ensures |r0[k]| > |PackageJsonPath(last)| {
        var d := DirectoryOf(r0[k]);
        var i :| 0 <= i < |init| && init[i] == d;
        assert dirs[i] == d;
      }
    }
  }

  /** Listing depends only on the entries of the listed directories. */
  lemma {:induction false} ListingStable(dirs: seq<Path>, before: CacheState, after: CacheState)
    requires forall i :: 0 <= i < |dirs| ==>
      StatusOf(after, dirs[i]) == StatusOf(before, dirs[i]) && InfoOf(after, dirs[i]) == InfoOf(before, dirs[i])
    ensures TruePaths(dirs, after) == TruePaths(dirs, before)
    ensures Collect(dirs, after) == Collect(dirs, before)
    decreases |dirs|
  {
    if dirs != [] {
      ListingStable(dirs[..|dirs| - 1], before, after);
    }
  }

  /** Each entry of the listing is the cached info of a `True` directory of `dirs`. */
  lemma {:induction false} CollectSources(dirs: seq<Path>, st: CacheState)
    requires ValidState(st)
    ensures forall k :: 0 <= k < |Collect(dirs, st)| ==>
      DirectoryOf(Collect(dirs, st)[k].fileName) in dirs &&
      StatusOf(st, DirectoryOf(Collect(dirs, st)[k].fileName)) == True &&
      InfoOf(st, DirectoryOf(Collect(dirs, st)[k].fileName)) == Some(Collect(dirs, st)[k])
    decreases |dirs|
  {
    if dirs != [] {
      var init := dirs[..|dirs| - 1];
      CollectSources(init, st);
      var r := Collect(dirs, st);
      var r0 := Collect(init, st);
      assert forall k :: 0 <= k < |r0| ==> r[k] == r0[k];
    }
  }

  /** Every info of a `True` directory of the walk is in the result. */
  lemma {:induction false} CollectComplete(dirs: seq<Path>, st: CacheState)
    ensures forall i :: 0 <= i < |dirs| && StatusOf(st, dirs[i]) == True && InfoOf(st, dirs[i]).Some? ==>
      InfoOf(st, dirs[i]).value in Collect(dirs, st)
    decreases |dirs|
  {
    if dirs != [] {
      var init := dirs[..|dirs| - 1];
      CollectComplete(init, st);
      forall i | 0 <= i < |dirs| && StatusOf(st, dirs[i]) == True && InfoOf(st, dirs[i]).Some?
        ensures InfoOf(st, dirs[i]).value in Collect(dirs, st)
      {
        if i < |init| {
          assert init[i] == dirs[i];
        }
      }
    }
  }

  /** Over a nearest-first walk, the result is ordered nearest package.json first. */
  lemma {:induction false} CollectOrdered(dirs: seq<Path>, st: CacheState)
    requires ValidState(st) && NearestFirst(dirs)
    ensures forall k, l :: 0 <= k < l < |Collect(dirs, st)| ==>
      |DirectoryOf(Collect(dirs, st)[k].fileName)| > |DirectoryOf(Collect(dirs, st)[l].fileName)|
    decreases |dirs|
  {
    if dirs != [] {
      var init := dirs[..|dirs| - 1];
      var last := dirs[|dirs| - 1];
      assert NearestFirst(init);
      CollectOrdered(init, st);
      CollectSources(init, st);
      var r := Collect(dirs, st);
      var r0 := Collect(init, st);
      assert forall k :: 0 <= k < |r0| ==> r[k] == r0[k];
      if |r| > |r0| {
        assert DirectoryOf(r[|r0|].fileName) == last;
        forall k | 0 <= k < |r0| ensures |DirectoryOf(r[k].fileName)| > |last| {
          EarlierIsLonger(dirs, |dirs|, DirectoryOf(r0[k].fileName));
        }
      }
    }
  }

  /** What one step of the walk reads and changes: the cache, the watchers, the calls made, the result so far. */
  datatype WalkState = WalkState(
    cache: CacheState,
    watchers: map<Path, FileWatcher>,
    effects: seq<Effect>,
    result: seq<PackageJsonInfo>,
    searched: seq<Path>)

  /** The cache after `processDirectory(directory)`: an unknown directory is searched from. */
  function StepCache(cache: CacheState, directory: Path, files: map<Path, string>): CacheState
  {
    if StatusOf(cache, directory) == Maybe then ScanFrom(Ancestors(directory), cache, files) else cache
  }

  /** The directories searched from, after `processDirectory(directory)`. */
  function StepSearched(cache: CacheState, directory: Path, searched: seq<Path>): seq<Path>
  {
    if StatusOf(cache, directory) == Maybe then searched + [directory] else searched
  }

  /**
   * `processDirectory(directory)` on values: an unknown directory is first
   * searched from; then a `True` directory has its package.json registered
   * and its info, if any, appended.
   */
  function ProcessStep(ws: WalkState, directory: Path, files: map<Path, string>,
                       projects: seq<Project>, factory: WatchFactory): WalkState
  {
    VisitResolved(ws.(cache := StepCache(ws.cache, directory, files),
                      searched := StepSearched(ws.cache, directory, ws.searched)),
                  directory, projects, factory)
  }

  /**
   * Processing a directory the cache has resolved: a `True` one has its
   * package.json registered and its info, if any, appended; a `False` one
   * changes nothing.
   */
  function VisitResolved(ws: WalkState, directory: Path, projects: seq<Project>, factory: WatchFactory): WalkState
  {
    if StatusOf(ws.cache, directory) == True then
      var p := PackageJsonPath(directory);
      var info := InfoOf(ws.cache, directory);
      ws.(watchers := Registered(ws.watchers, p, factory),
          effects := ws.effects + RegistrationEffects(ws.watchers, p, projects, factory),
          result := ws.result + (if info.Some? then [info.value] else []))
    else
      ws
  }

  /**
   * After `processDirectory(directory)` the directory is resolved, the cache
   * has only grown, the result has only been extended, by at most one info,
   * and a `True` directory's package.json is watched.
   */
  lemma ProcessStepResolves(ws: WalkState, directory: Path, files: map<Path, string>,
                            projects: seq<Project>, factory: WatchFactory)
    ensures var r := ProcessStep(ws, directory, files, projects, factory);
      && ws.cache.status.Keys <= r.cache.status.Keys
      && StatusOf(r.cache, directory) != Maybe
      && ws.result <= r.result && |r.result| <= |ws.result| + 1
      && (StatusOf(r.cache, directory) == True ==> PackageJsonPath(directory) in r.watchers)
  {
    if StatusOf(ws.cache, directory) == Maybe {
      var a := Ancestors(directory);
      ScanFromResolvesFirst(a, ws.cache, files);
      forall d | d in ws.cache.status ensures d in ScanFrom(a, ws.cache, files).status {
        ScanFromKeeps(a, ws.cache, files, d);
      }
    }
  }

  /** The walk over `dirs`, one `ProcessStep` per directory, nearest first. */
  function WalkFold(dirs: seq<Path>, ws: WalkState, files: map<Path, string>,
                    projects: seq<Project>, factory: WatchFactory): WalkState
    decreases |dirs|
  {
    if dirs == [] then ws
    else ProcessStep(WalkFold(dirs[..|dirs| - 1], ws, files, projects, factory), dirs[|dirs| - 1], files, projects, factory)
  }

  /** One more processed directory extends the walk by one step. */
  lemma WalkFoldNext(dirs: seq<Path>, i: nat, ws0: WalkState, prev: WalkState, next: WalkState,
                     files: map<Path, string>, projects: seq<Project>, factory: WatchFactory)
    requires i < |dirs|
    requires prev == WalkFold(dirs[..i], ws0, files, projects, factory)
    requires next == ProcessStep(prev, dirs[i], files, projects, factory)
    ensures next == WalkFold(dirs[..i + 1], ws0, files, projects, factory)
  {
    assert dirs[..i + 1][..i] == dirs[..i];
  }

  /**
   * What a walk over the first `n` directories of `a` did to the cache, which
   * started as `c0`: it is valid, every walked directory is resolved, only
   * directories of `a` were resolved, from the disk, and the searches started
   * from distinct walked directories that were unknown in `c0`.
   */
  ghost predicate CacheFacts(a: seq<Path>, n: nat, c0: CacheState, cache: CacheState, searched: seq<Path>,
                             files: map<Path, string>)
    requires n <= |a|
  {
    && ValidState(cache)
    && (forall j :: 0 <= j < n ==> StatusOf(cache, a[j]) != Maybe)
    && Extends(c0, cache, files, a)
    && Distinct(searched)
    && (forall k :: 0 <= k < |searched| ==> searched[k] in a[..n] && StatusOf(c0, searched[k]) == Maybe)
  }

  /** One more step keeps the cache facts. */
  lemma CacheStep(a: seq<Path>, n: nat, c0: CacheState, cache: CacheState, searched: seq<Path>, files: map<Path, string>)
    requires 0 < n <= |a| && NearestFirst(a) && AncestorClosed(a)
    requires CacheFacts(a, n - 1, c0, cache, searched, files)
    ensures CacheFacts(a, n, c0, StepCache(cache, a[n - 1], files), StepSearched(cache, a[n - 1], searched), files)
  {
    if StatusOf(cache, a[n - 1]) == Maybe {
      CacheStepUnknown(a, n, c0, cache, searched, files);
    } else {
      forall k | 0 <= k < |searched| ensures searched[k] in a[..n] {
        EarlierIsLonger(a, n, searched[k]);
      }
    }
  }

  /** A step at an unknown directory: the search from it extends the cache within `a`. */
  lemma CacheStepUnknown(a: seq<Path>, n: nat, c0: CacheState, cache: CacheState, searched: seq<Path>, files: map<Path, string>)
    requires 0 < n <= |a| && NearestFirst(a) && AncestorClosed(a)
    requires CacheFacts(a, n - 1, c0, cache, searched, files)
    requires StatusOf(cache, a[n - 1]) == Maybe
    ensures CacheFacts(a, n, c0, ScanFrom(Ancestors(a[n - 1]), cache, files), searched + [a[n - 1]], files)
  {
    var d := a[n - 1];
    var next := ScanFrom(Ancestors(d), cache, files);
    SearchWithin(a, n, c0, cache, files);
    forall j | 0 <= j < n ensures StatusOf(next, a[j]) != Maybe {
      if j < n - 1 {
        assert StatusOf(cache, a[j]) != Maybe;
      }
    }
    SearchedStep(a, n, c0, searched, searched + [d]);
  }

  /** Adding the `n`-th directory, unknown at the start, to the searches keeps them distinct and walked. */
  lemma SearchedStep(a: seq<Path>, n: nat, c0: CacheState, searched: seq<Path>, after: seq<Path>)
    requires 0 < n <= |a| && NearestFirst(a) && after == searched + [a[n - 1]]
    requires Distinct(searched)
    requires forall k :: 0 <= k < |searched| ==> searched[k] in a[..n - 1] && StatusOf(c0, searched[k]) == Maybe
    requires StatusOf(c0, a[n - 1]) == Maybe
    ensures Distinct(after)
    ensures forall k :: 0 <= k < |after| ==> after[k] in a[..n] && StatusOf(c0, after[k]) == Maybe
  {
    var d := a[n - 1];
    forall k | 0 <= k < |searched| ensures searched[k] != d && searched[k] in a[..n] {
      EarlierIsLonger(a, n, searched[k]);
    }
    DistinctAppend(searched, d);
    assert a[..n][n - 1] == d;
  }

  /** The search from the `n`-th directory of `a` resolves it and stays within `a`. */
  lemma SearchWithin(a: seq<Path>, n: nat, c0: CacheState, cache: CacheState, files: map<Path, string>)
    requires 0 < n <= |a| && AncestorClosed(a)
    requires ValidState(cache) && Extends(c0, cache, files, a)
    ensures var next := ScanFrom(Ancestors(a[n - 1]), cache, files);
      && ValidState(next) && Extends(c0, next, files, a) && Extends(cache, next, files, a)
      && StatusOf(next, a[n - 1]) != Maybe
  {
    var d := a[n - 1];
    var next := ScanFrom(Ancestors(d), cache, files);
    ScanFromExtends(Ancestors(d), cache, files);
    assert Ancestors(d) == a[n - 1..];
    TailMembers(a, n - 1);
    ExtendsWiden(cache, next, files, Ancestors(d), a);
    ExtendsChain(c0, cache, next, files, a);
  }

  /**
   * Walking the first `n` directories of an ancestor walk `a` keeps the cache
   * valid, resolves every walked directory, only resolves directories of `a`
   * from the disk, and searches from each directory at most once, only from
   * unknown ones.
   */
  lemma {:induction false} WalkFoldCache(a: seq<Path>, n: nat, ws0: WalkState, files: map<Path, string>,
                                         projects: seq<Project>, factory: WatchFactory)
    requires n <= |a| && NearestFirst(a) && AncestorClosed(a)
    requires ValidState(ws0.cache) && ws0.searched == []
    ensures var ws := WalkFold(a[..n], ws0, files, projects, factory);
      CacheFacts(a, n, ws0.cache, ws.cache, ws.searched, files)
    decreases n
  {
    if n == 0 {
      assert a[..0] == [];
      ExtendsReflexive(ws0.cache, files, a);
    } else {
      assert a[..n][..n - 1] == a[..n - 1];
      WalkFoldCache(a, n - 1, ws0, files, projects, factory);
      var prev := WalkFold(a[..n - 1], ws0, files, projects, factory);
      var ws := WalkFold(a[..n], ws0, files, projects, factory);
      assert ws == ProcessStep(prev, a[n - 1], files, projects, factory);
      assert ws.cache == StepCache(prev.cache, a[n - 1], files);
      assert ws.searched == StepSearched(prev.cache, a[n - 1], prev.searched);
      CacheStep(a, n, ws0.cache, prev.cache, prev.searched, files);
    }
  }

  /** When no directory of `a` was known, the first step resolves them all and is the only search. */
  lemma {:induction false} WalkFoldSingleSearch(a: seq<Path>, n: nat, ws0: WalkState, files: map<Path, string>,
                                               projects: seq<Project>, factory: WatchFactory)
    requires 0 < n <= |a| && NearestFirst(a) && AncestorClosed(a)
    requires ValidState(ws0.cache) && ws0.searched == []
    requires forall i :: 0 <= i < |a| ==> StatusOf(ws0.cache, a[i]) == Maybe
    ensures WalkFold(a[..n], ws0, files, projects, factory).searched == [a[0]]
    ensures forall i :: 0 <= i < |a| ==> StatusOf(WalkFold(a[..n], ws0, files, projects, factory).cache, a[i]) != Maybe
    decreases n
  {
    assert a[..n][..n - 1] == a[..n - 1];
    var prev := WalkFold(a[..n - 1], ws0, files, projects, factory);
    var ws := WalkFold(a[..n], ws0, files, projects, factory);
    assert ws == ProcessStep(prev, a[n - 1], files, projects, factory);
    if n == 1 {
      assert a[..0] == [];
      assert Ancestors(a[0]) == a[0..] == a;
      ScanFromResolvesAll(a, ws0.cache, files);
    } else {
      WalkFoldSingleSearch(a, n - 1, ws0, files, projects, factory);
    }
  }

  /**
   * The search from an unknown directory is not bounded by the root path:
   * for a file in `/a/b` with root `/a` and a package.json only at `/`, on a
   * cold cache, the walk processes `/a/b` and `/a` and lists nothing, yet the
   * search has read and cached the package.json of `/`, above the root.
   */
  lemma SearchReadsAboveRoot(projects: seq<Project>, factory: WatchFactory)
    ensures var files := map[PackageJsonPath([]) := "root"];
            var walked := WalkedDirectories(Ancestors(["a", "b"]), Some(["a"]));
            var ws := WalkFold(walked, WalkState(CacheState(map[], map[]), map[], [], [], []), files, projects, factory);
            && walked == [["a", "b"], ["a"]]
            && ws.result == []
            && StatusOf(ws.cache, []) == True
            && InfoOf(ws.cache, []) == Some(PackageJsonInfo(PackageJsonPath([]), "root"))
  {
    var files: map<Path, string> := map[PackageJsonPath([]) := "root"];
    var ab: Path := ["a", "b"];
    var a: Path := ["a"];
    var dirs := Ancestors(ab);
    SearchAboveRootScan();
    assert dirs[1..] == [a, []];
    assert WalkedDirectories(dirs[1..], Some(a)) == [a];
    var w := WalkedDirectories(dirs, Some(a));
    assert w == [ab, a];
    var ws0 := WalkState(CacheState(map[], map[]), map[], [], [], []);
    var s1 := ProcessStep(ws0, ab, files, projects, factory);
    var s2 := ProcessStep(s1, a, files, projects, factory);
    assert s2.cache == s1.cache && s2.result == [];
    assert w[..1] == [ab];
    assert WalkFold([ab], ws0, files, projects, factory) == s1;
    assert WalkFold(w, ws0, files, projects, factory) == s2;
  }

  /** The search of that example, from `/a/b` on a cold cache, reads all three directories. */
  lemma SearchAboveRootScan()
    ensures var files := map[PackageJsonPath([]) := "root"];
            var st := ScanFrom(Ancestors(["a", "b"]), CacheState(map[], map[]), files);
            && Ancestors(["a", "b"]) == [["a", "b"], ["a"], []]
            && StatusOf(st, ["a", "b"]) == False && StatusOf(st, ["a"]) == False
            && StatusOf(st, []) == True
            && InfoOf(st, []) == Some(PackageJsonInfo(PackageJsonPath([]), "root"))
  {
    var files: map<Path, string> := map[PackageJsonPath([]) := "root"];
    var ab: Path := ["a", "b"];
    var a: Path := ["a"];
    var r: Path := [];
    assert DirectoryOf(ab) == a && DirectoryOf(a) == r;
    assert Ancestors(r) == [r];
    assert Ancestors(a) == [a, r];
    assert Ancestors(ab) == [ab, a, r];
    var c0 := CacheState(map[], map[]);
    assert PackageJsonPath(ab) !in files && PackageJsonPath(a) !in files && PackageJsonPath(r) in files;
    var c1 := Resolve(c0, ab, files);
    var c2 := Resolve(c1, a, files);
    var c3 := Resolve(c2, r, files);
    assert [ab, a, r][1..] == [a, r] && [a, r][1..] == [r];
    assert ScanFrom([ab, a, r], c0, files) == ScanFrom([a, r], c1, files);
    assert ScanFrom([a, r], c1, files) == ScanFrom([r], c2, files);
    assert ScanFrom([r], c2, files) == c3;
  }

  /** What a walk over the first `n` directories of `a`, from `ws0` to `ws`, listed and registered. */
  ghost predicate ListingFacts(a: seq<Path>, n: nat, ws0: WalkState, ws: WalkState, projects: seq<Project>, factory: WatchFactory)
    requires n <= |a|
  {
    && ws.result == ws0.result + Collect(a[..n], ws.cache)
    && ws.watchers == RegisterAll(ws0.watchers, TruePaths(a[..n], ws.cache), factory)
    && ws.effects == ws0.effects + RegisterAllEffects(ws0.watchers, TruePaths(a[..n], ws.cache), projects, factory)
  }

  /** What a walk over the first `n` directories of `a` lists and registers, read off the final cache. */
  lemma {:induction false} WalkFoldListing(a: seq<Path>, n: nat, ws0: WalkState, files: map<Path, string>,
                                           projects: seq<Project>, factory: WatchFactory)
    requires n <= |a| && NearestFirst(a) && AncestorClosed(a)
    requires ValidState(ws0.cache) && ws0.searched == []
    ensures ListingFacts(a, n, ws0, WalkFold(a[..n], ws0, files, projects, factory), projects, factory)
    decreases n
  {
    if n == 0 {
      assert a[..0] == [];
    } else {
      assert a[..n][..n - 1] == a[..n - 1];
      WalkFoldListing(a, n - 1, ws0, files, projects, factory);
      WalkFoldCache(a, n - 1, ws0, files, projects, factory);
      var prev := WalkFold(a[..n - 1], ws0, files, projects, factory);
      assert WalkFold(a[..n], ws0, files, projects, factory) == ProcessStep(prev, a[n - 1], files, projects, factory);
      ListingStep(a, n, ws0, prev, files, projects, factory);
    }
  }

  /**
   * What a walk over `walked`, a prefix of the ancestor walk `a`, achieves
   * from `ws0` to `ws`: every walked directory is resolved; the cache only
   * gains entries for directories of `a`, read from the disk; the result lists
   * the infos of the walked `True` directories in walk order; their
   * package.json files are watched, with the calls that registration makes;
   * the searches started from distinct walked directories that were unknown,
   * and when the whole walk was unknown, only from the first one.
   */
  ghost predicate WalkOutcome(walked: seq<Path>, a: seq<Path>, ws0: WalkState, ws: WalkState,
                              files: map<Path, string>, projects: seq<Project>, factory: WatchFactory)
  {
    && (forall d :: d in walked ==> StatusOf(ws.cache, d) != Maybe)
    && Extends(ws0.cache, ws.cache, files, a)
    && ws.result == ws0.result + Collect(walked, ws.cache)
    && ws.watchers == RegisterAll(ws0.watchers, TruePaths(walked, ws.cache), factory)
    && ws.effects == ws0.effects + RegisterAllEffects(ws0.watchers, TruePaths(walked, ws.cache), projects, factory)
    && (forall d :: d in walked && StatusOf(ws.cache, d) == True ==> PackageJsonPath(d) in ws.watchers)
    && Distinct(ws.searched)
    && (forall k :: 0 <= k < |ws.searched| ==>
          ws.searched[k] in walked && StatusOf(ws0.cache, ws.searched[k]) == Maybe)
    && (walked != [] && a != [] && (forall i :: 0 <= i < |a| ==> StatusOf(ws0.cache, a[i]) == Maybe) ==> ws.searched == [a[0]])
  }

  /** The walk over the first `n` directories of an ancestor walk achieves `WalkOutcome`. */
  lemma WalkFoldOutcome(a: seq<Path>, n: nat, ws0: WalkState, files: map<Path, string>,
                        projects: seq<Project>, factory: WatchFactory)
    requires n <= |a| && NearestFirst(a) && AncestorClosed(a)
    requires ValidState(ws0.cache) && ws0.searched == []
    ensures WalkOutcome(a[..n], a, ws0, WalkFold(a[..n], ws0, files, projects, factory), files, projects, factory)
  {
    var ws := WalkFold(a[..n], ws0, files, projects, factory);
    WalkFoldCache(a, n, ws0, files, projects, factory);
    WalkFoldListing(a, n, ws0, files, projects, factory);
    if n > 0 && forall k :: 0 <= k < |a| ==> StatusOf(ws0.cache, a[k]) == Maybe {
      WalkFoldSingleSearch(a, n, ws0, files, projects, factory);
    }
    WalkedMembership(a, n, ws0.watchers, ws.cache, ws.searched, factory);
  }

  /** Membership in a walked prefix, by index, for the resolved and watched directories. */
  lemma WalkedMembership(a: seq<Path>, n: nat, watchers: map<Path, FileWatcher>, cache: CacheState,
                         searched: seq<Path>, factory: WatchFactory)
    requires n <= |a|
    requires forall j :: 0 <= j < n ==> StatusOf(cache, a[j]) != Maybe
    ensures forall d :: d in a[..n] ==> StatusOf(cache, d) != Maybe
    ensures forall d :: d in a[..n] && StatusOf(cache, d) == True ==>
      PackageJsonPath(d) in RegisterAll(watchers, TruePaths(a[..n], cache), factory)
  {
    var walked := a[..n];
    RegisterAllContents(watchers, TruePaths(walked, cache), factory);
    TruePathsMembership(walked, cache);
    forall d | d in walked ensures StatusOf(cache, d) != Maybe && (StatusOf(cache, d) == True ==> PackageJsonPath(d) in TruePaths(walked, cache)) {
      var j :| 0 <= j < |walked| && walked[j] == d;
      assert a[j] == d;
    }
  }

  /** One more step keeps the listing facts. */
  lemma ListingStep(a: seq<Path>, n: nat, ws0: WalkState, prev: WalkState, files: map<Path, string>,
                    projects: seq<Project>, factory: WatchFactory)
    requires 0 < n <= |a|
    requires ValidState(prev.cache) && forall j :: 0 <= j < n - 1 ==> StatusOf(prev.cache, a[j]) != Maybe
    requires ListingFacts(a, n - 1, ws0, prev, projects, factory)
    ensures ListingFacts(a, n, ws0, ProcessStep(prev, a[n - 1], files, projects, factory), projects, factory)
  {
    var ws := ProcessStep(prev, a[n - 1], files, projects, factory);
    StepShape(prev, a[n - 1], files, projects, factory);
    WalkStepListing(a, n, prev.cache, ws.cache, files);
    TruePathsStep(a, n, ws.cache);
    ResultStep(a, n, ws0, prev, ws);
    WatchersStep(a, n, ws0, prev, ws, factory);
    if StatusOf(ws.cache, a[n - 1]) == True {
      EffectsStep(ws0.watchers, TruePaths(a[..n - 1], ws.cache), prev.watchers,
                  ws0.effects, prev.effects, ws.effects, PackageJsonPath(a[n - 1]), projects, factory);
    } else {
      assert TruePaths(a[..n], ws.cache) == TruePaths(a[..n - 1], ws.cache);
      assert ws.effects == prev.effects;
    }
  }

  /** What one step appends to the result, the watchers and the calls. */
  lemma StepShape(prev: WalkState, d: Path, files: map<Path, string>, projects: seq<Project>, factory: WatchFactory)
    ensures var ws := ProcessStep(prev, d, files, projects, factory);
      var c := ws.cache;
      var p := PackageJsonPath(d);
      && c == StepCache(prev.cache, d, files)
      && ws.result == prev.result + (if StatusOf(c, d) == True && InfoOf(c, d).Some? then [InfoOf(c, d).value] else [])
      && ws.watchers == (if StatusOf(c, d) == True then Registered(prev.watchers, p, factory) else prev.watchers)
      && ws.effects == prev.effects + (if StatusOf(c, d) == True then RegistrationEffects(prev.watchers, p, projects, factory) else [])
  {
  }

  /** The paths listed over one more directory. */
  lemma TruePathsStep(a: seq<Path>, n: nat, c: CacheState)
    requires 0 < n <= |a|
    ensures TruePaths(a[..n], c) == TruePaths(a[..n - 1], c) + (if StatusOf(c, a[n - 1]) == True then [PackageJsonPath(a[n - 1])] else [])
    ensures Collect(a[..n], c) == Collect(a[..n - 1], c) +
      (if StatusOf(c, a[n - 1]) == True && InfoOf(c, a[n - 1]).Some? then [InfoOf(c, a[n - 1]).value] else [])
  {
    assert a[..n][..n - 1] == a[..n - 1];
  }

  lemma ResultStep(a: seq<Path>, n: nat, ws0: WalkState, prev: WalkState, ws: WalkState)
    requires 0 < n <= |a|
    requires prev.result == ws0.result + Collect(a[..n - 1], prev.cache)
    requires Collect(a[..n - 1], ws.cache) == Collect(a[..n - 1], prev.cache)
    requires Collect(a[..n], ws.cache) == Collect(a[..n - 1], ws.cache) +
      (if StatusOf(ws.cache, a[n - 1]) == True && InfoOf(ws.cache, a[n - 1]).Some? then [InfoOf(ws.cache, a[n - 1]).value] else [])
    requires var c := ws.cache;
      var d := a[n - 1];
      ws.result == prev.result + (if StatusOf(c, d) == True && InfoOf(c, d).Some? then [InfoOf(c, d).value] else [])
    ensures ws.result == ws0.result + Collect(a[..n], ws.cache)
  {
  }

  lemma WatchersStep(a: seq<Path>, n: nat, ws0: WalkState, prev: WalkState, ws: WalkState, factory: WatchFactory)
    requires 0 < n <= |a|
    requires prev.watchers == RegisterAll(ws0.watchers, TruePaths(a[..n - 1], prev.cache), factory)
    requires TruePaths(a[..n - 1], ws.cache) == TruePaths(a[..n - 1], prev.cache)
    requires TruePaths(a[..n], ws.cache) ==
      TruePaths(a[..n - 1], ws.cache) + (if StatusOf(ws.cache, a[n - 1]) == True then [PackageJsonPath(a[n - 1])] else [])
    requires var c := ws.cache;
      var d := a[n - 1];
      ws.watchers == (if StatusOf(c, d) == True then Registered(prev.watchers, PackageJsonPath(d), factory) else prev.watchers)
    ensures ws.watchers == RegisterAll(ws0.watchers, TruePaths(a[..n], ws.cache), factory)
  {
    var before := TruePaths(a[..n - 1], ws.cache);
    if StatusOf(ws.cache, a[n - 1]) == True {
      RegisterLast(ws0.watchers, before, PackageJsonPath(a[n - 1]), [], factory);
    } else {
      assert TruePaths(a[..n], ws.cache) == before;
    }
  }

  lemma EffectsStep(w0: map<Path, FileWatcher>, before: seq<Path>, watchers: map<Path, FileWatcher>,
                    e0: seq<Effect>, prevEffects: seq<Effect>, effects: seq<Effect>, p: Path,
                    projects: seq<Project>, factory: WatchFactory)
    requires watchers == RegisterAll(w0, before, factory)
    requires prevEffects == e0 + RegisterAllEffects(w0, before, projects, factory)
    requires effects == prevEffects + RegistrationEffects(watchers, p, projects, factory)
    ensures effects == e0 + RegisterAllEffects(w0, before + [p], projects, factory)
  {
    var e1 := RegisterAllEffects(w0, before, projects, factory);
    var e2 := RegistrationEffects(watchers, p, projects, factory);
    assert RegisterAllEffects(w0, before + [p], projects, factory) == e1 + e2 by {
      RegisterLast(w0, before, p, projects, factory);
    }
    assert e0 + e1 + e2 == e0 + (e1 + e2);
  }

  /** Registering one more path extends what registering the earlier ones did. */
  lemma RegisterLast(watchers: map<Path, FileWatcher>, paths: seq<Path>, p: Path, projects: seq<Project>, factory: WatchFactory)
    ensures RegisterAll(watchers, paths + [p], factory) == Registered(RegisterAll(watchers, paths, factory), p, factory)
    ensures RegisterAllEffects(watchers, paths + [p], projects, factory) ==
      RegisterAllEffects(watchers, paths, projects, factory) + RegistrationEffects(RegisterAll(watchers, paths, factory), p, projects, factory)
  {
    assert (paths + [p])[..|paths|] == paths;
  }

  /** One step of the walk leaves what the earlier steps listed unchanged. */
  lemma WalkStepListing(a: seq<Path>, n: nat, prev: CacheState, next: CacheState, files: map<Path, string>)
    requires 0 < n <= |a|
    requires forall j :: 0 <= j < n - 1 ==> StatusOf(prev, a[j]) != Maybe
    requires next == StepCache(prev, a[n - 1], files)
    requires ValidState(prev)
    ensures Collect(a[..n - 1], next) == Collect(a[..n - 1], prev)
    ensures TruePaths(a[..n - 1], next) == TruePaths(a[..n - 1], prev)
  {
    if StatusOf(prev, a[n - 1]) == Maybe {
      ScanFromExtends(Ancestors(a[n - 1]), prev, files);
    }
    ListingStable(a[..n - 1], prev, next);
  }

  /**
   * The project service. Its package.json cache, its map from package.json
   * path to watcher (created empty: an absent map and an empty one behave
   * alike), its set of projects, and the host helpers it was built with.
   */
  class ProjectService {
    /** `toPath(fileName, currentDirectory, toCanonicalFileName)`, fixed at construction. */
    const toPath: string -> Path
    /** `createGetCanonicalFileName(sys.useCaseSensitiveFileNames)`. */
    const toCanonicalFileName: string -> string
    /** `getNormalizedAbsolutePath(fileName, host.getCurrentDirectory())`. */
    const getNormalizedAbsolutePath: string -> string
    const hostConfiguration: HostConfiguration
    const watchFactory: WatchFactory
    const packageJsonCache: Cache
    const log: EffectLog
    var packageJsonFilesMap: map<Path, FileWatcher>
    var projects: seq<Project>

    ghost predicate Valid()
      reads this, packageJsonCache
    {
      && packageJsonCache.Valid()
      && Distinct(projects)
      && (forall p :: p in packageJsonFilesMap ==> packageJsonFilesMap[p] == WatcherFor(p, watchFactory))
    }

    /** The package.json files on the host's disk. */
    ghost function Files(): map<Path, string>
      reads packageJsonCache, packageJsonCache.host
    {
      packageJsonCache.host.packageJsonFiles
    }

    /**
     * `createProjectService`: an empty cache, no watchers, no projects; the
     * watch factory is the one of `options`, or the no-op factory.
     */
    constructor (toPath: string -> Path, toCanonicalFileName: string -> string,
                 getNormalizedAbsolutePath: string -> string, host: HostFileSystem,
                 hostConfiguration: HostConfiguration, options: Option<ProjectServiceOptions>, log: EffectLog)
      ensures Valid() && fresh(packageJsonCache)
      ensures this.toPath == toPath && this.toCanonicalFileName == toCanonicalFileName
      ensures this.getNormalizedAbsolutePath == getNormalizedAbsolutePath
      ensures this.hostConfiguration == hostConfiguration && this.log == log
      ensures watchFactory == if options.Some? && options.value.watchFactory.Some?
                              then options.value.watchFactory.value else NoopWatchFactory
      ensures packageJsonCache.host == host
      ensures forall d :: StatusOf(packageJsonCache.State(), d) == Maybe
      ensures packageJsonFilesMap == map[] && projects == []
    {
      this.toPath := toPath;
      this.toCanonicalFileName := toCanonicalFileName;
      this.getNormalizedAbsolutePath := getNormalizedAbsolutePath;
      this.hostConfiguration := hostConfiguration;
      this.log := log;
      watchFactory := if options.Some? && options.value.watchFactory.Some?
                      then options.value.watchFactory.value else NoopWatchFactory;
      packageJsonCache := new Cache(host);
      packageJsonFilesMap := map[];
      projects := [];
    }

    /** `rootDir && this.toPath(rootDir)`: an absent or empty root directory is no root. */
    function RootPathOf(rootDir: Option<string>): (r: Option<Path>)
      ensures r.None? <==> rootDir.None? || rootDir.value == ""
      ensures r.Some? ==> r.value == toPath(rootDir.value)
    {
      if rootDir.None? || rootDir.value == "" then None else Some(toPath(rootDir.value))
    }

    /** The directories `forEachAncestorDirectory(getDirectoryPath(filePath), ...)` offers. */
    function AncestorWalk(fileName: string): seq<Path>
    {
      Ancestors(DirectoryOf(toPath(fileName)))
    }

    /** The directories `getPackageJsonsVisibleToFile(fileName, rootDir)` processes. */
    function Walk(fileName: string, rootDir: Option<string>): seq<Path>
    {
      WalkedDirectories(AncestorWalk(fileName), RootPathOf(rootDir))
    }

    /** The walk's view of this service: cache, watchers, calls made so far, and a result. */
    ghost function Snapshot(result: seq<PackageJsonInfo>, searched: seq<Path>): WalkState
      reads this, packageJsonCache, log
    {
      WalkState(packageJsonCache.State(), packageJsonFilesMap, log.effects, result, searched)
    }

    /**
     * `getPackageJsonsVisibleToFile`. Every walked directory ends up resolved;
     * the cache only gains entries for unknown ancestors, read from the disk;
     * the result lists the infos of the walked `True` directories in walk
     * order; their package.json files are watched, with the calls that
     * registration makes. `searched` names the directories it searched from:
     * each was unknown at the start, none twice, and when the whole walk was
     * unknown, only the first one.
     */
    method GetPackageJsonsVisibleToFile(fileName: string, rootDir: Option<string>)
      returns (result: seq<PackageJsonInfo>, ghost searched: seq<Path>)
      requires Valid()
      modifies this`packageJsonFilesMap, packageJsonCache, log
      ensures Valid()
      ensures Snapshot(result, searched) ==
        WalkFold(Walk(fileName, rootDir), old(Snapshot([], [])), Files(), projects, watchFactory)
      ensures WalkOutcome(Walk(fileName, rootDir), AncestorWalk(fileName), old(Snapshot([], [])),
                          Snapshot(result, searched), Files(), projects, watchFactory)
    {
      var rootPath := RootPathOf(rootDir);
      var directory := DirectoryOf(toPath(fileName));
      ghost var ws0 := Snapshot([], []);
      ghost var n;
      result, searched, n := ForEachAncestorDirectory(Ancestors(directory), rootPath);
      AncestorsClosed(directory);
      WalkFoldOutcome(Ancestors(directory), n, ws0, Files(), projects, watchFactory);
    }

    /**
     * `forEachAncestorDirectory(directory, processDirectory)` over the
     * ancestors `dirs` of a directory, nearest first: processes them until one
     * of them is the root path; what it processed is the walk the root path
     * bounds.
     */
    method ForEachAncestorDirectory(dirs: seq<Path>, rootPath: Option<Path>)
      returns (result: seq<PackageJsonInfo>, ghost searched: seq<Path>, ghost n: nat)
      requires Valid()
      modifies this`packageJsonFilesMap, packageJsonCache, log
      ensures Valid()
      ensures n <= |dirs|
      ensures WalkedDirectories(dirs, rootPath) == dirs[..n]
      ensures Snapshot(result, searched) == WalkFold(dirs[..n], old(Snapshot([], [])), Files(), projects, watchFactory)
    {
      ghost var ws0 := Snapshot([], []);
      ghost var files := Files();
      result := [];
      searched := [];
      var i := 0;
      var stop := false;
      while i < |dirs| && !stop
        invariant 0 <= i <= |dirs|
        invariant Valid() && projects == old(projects)
        invariant stop <==> 0 < i && rootPath == Some(dirs[i - 1])
        invariant forall j :: 0 <= j < i - 1 ==> rootPath != Some(dirs[j])
        invariant Snapshot(result, searched) == WalkFold(dirs[..i], ws0, files, projects, watchFactory)
        decreases |dirs| - i
      {
        ghost var before := Snapshot(result, searched);
        var s, r, visits, sd := ProcessDirectory(dirs[i], rootPath, result, searched);
        assert Files() == files;
        WalkFoldNext(dirs, i, ws0, before, Snapshot(r, sd), files, projects, watchFactory);
        searched := sd;
        stop := s;
        result := r;
        i := i + 1;
      }
      WalkedPrefix(dirs, rootPath, i);
      n := i;
    }

    /**
     * `processDirectory(directory)`. A `Maybe` directory is searched once and
     * processed again (two visits; the second finds it resolved); a `True`
     * directory has its package.json watched and its info, if any, appended.
     * `stop` reports that the directory is the root path.
     */
    method ProcessDirectory(directory: Path, rootPath: Option<Path>, result: seq<PackageJsonInfo>, ghost searched: seq<Path>)
      returns (stop: bool, result': seq<PackageJsonInfo>, ghost visits: nat, ghost searched': seq<Path>)
      requires Valid()
      modifies this`packageJsonFilesMap, packageJsonCache, log
      decreases if StatusOf(packageJsonCache.State(), directory) == Maybe then 1 else 0
      ensures Valid()
      ensures stop <==> rootPath == Some(directory)
      ensures StatusOf(packageJsonCache.State(), directory) != Maybe
      ensures visits == if StatusOf(old(packageJsonCache.State()), directory) == Maybe then 2 else 1
      ensures searched' == if visits == 2 then searched + [directory] else searched
      ensures Snapshot(result', searched') == ProcessStep(old(Snapshot(result, searched)), directory, Files(), projects, watchFactory)
    {
      if packageJsonCache.DirectoryHasPackageJson(directory) == Maybe {
        packageJsonCache.SearchDirectoryAndAncestors(directory);
        ghost var v;
        stop, result', v, searched' := ProcessDirectory(directory, rootPath, result, searched + [directory]);
        visits := v + 1;
      } else {
        stop, result' := ProcessResolved(directory, rootPath, result, searched);
        visits := 1;
        searched' := searched;
      }
    }

    /** The `True` and `False` cases of `processDirectory`. */
    method ProcessResolved(directory: Path, rootPath: Option<Path>, result: seq<PackageJsonInfo>, ghost searched: seq<Path>)
      returns (stop: bool, result': seq<PackageJsonInfo>)
      requires Valid() && StatusOf(packageJsonCache.State(), directory) != Maybe
      modifies this`packageJsonFilesMap, log
      ensures Valid()
      ensures stop <==> rootPath == Some(directory)
      ensures Snapshot(result', searched) == VisitResolved(old(Snapshot(result, searched)), directory, projects, watchFactory)
    {
      if packageJsonCache.DirectoryHasPackageJson(directory) == True {
        var packageJsonFileName := PackageJsonPath(directory);
        WatchPackageJsonFile(packageJsonFileName);
        var info := packageJsonCache.GetInDirectory(directory);
        result' := if info.Some? then result + [info.value] else result;
      } else {
        result' := result;
      }
      stop := rootPath.Some? && rootPath.value == directory;
    }

    /** `includePackageJsonAutoImports`: 'on' is On, 'off' is Off, anything else (or nothing) is Auto. */
    function IncludePackageJsonAutoImports(): (r: PackageJsonAutoImportPreference)
      reads hostConfiguration
      ensures r == On <==> hostConfiguration.preferences.includePackageJsonAutoImports == Some("on")
      ensures r == Off <==> hostConfiguration.preferences.includePackageJsonAutoImports == Some("off")
      ensures r == Auto <==> hostConfiguration.preferences.includePackageJsonAutoImports !in {Some("on"), Some("off")}
    {
      match hostConfiguration.preferences.includePackageJsonAutoImports
      case Some("on") => On
      case Some("off") => Off
      case _ => Auto
    }

    /** `watchFactory.watchFile(path, callback, PollingInterval.Low, undefined)`. */
    method WatchFile(path: Path) returns (watcher: FileWatcher)
      modifies log
      ensures watcher == WatcherFor(path, watchFactory)
      ensures log.effects == old(log.effects) + WatchEffects(path, watchFactory)
    {
      if watchFactory == NoopWatchFactory {
        watcher := NoopWatcher;
      } else {
        log.effects := log.effects + [WatchStarted(path, PollingIntervalLow)];
        watcher := HostWatcher(path);
      }
    }

    /** `watcher.close()`. */
    method CloseWatcher(watcher: FileWatcher)
      modifies log
      ensures log.effects == old(log.effects) + CloseEffects(watcher)
    {
      if watcher.HostWatcher? {
        log.effects := log.effects + [WatcherClosed(watcher.file)];
      }
    }

    /**
     * `watchPackageJsonFile(path)`: a path already in the map changes nothing;
     * a new one is announced to every project, then watched and added to the map.
     */
    method WatchPackageJsonFile(path: Path)
      requires Valid()
      modifies this`packageJsonFilesMap, log
      ensures Valid()
      ensures packageJsonFilesMap == Registered(old(packageJsonFilesMap), path, watchFactory)
      ensures log.effects == old(log.effects) + RegistrationEffects(old(packageJsonFilesMap), path, projects, watchFactory)
    {
      if path !in packageJsonFilesMap {
        InvalidateProjectPackageJson(Some(path));
        var watcher := WatchFile(path);
        packageJsonFilesMap := packageJsonFilesMap[path := watcher];
      }
    }

    /**
     * The callback of a package.json watcher. Created throws; Changed re-reads
     * the file into the cache and announces the path; Deleted forgets the
     * directory, announces the path, closes the path's watcher if there is one
     * and removes it from the map.
     */
    method OnPackageJsonFileEvent(fileName: string, eventKind: FileWatcherEventKind) returns (outcome: Outcome)
      requires Valid()
      modifies this`packageJsonFilesMap, packageJsonCache, log
      ensures Valid()
      ensures eventKind == Created ==>
        && outcome == Fail(ExpectedToExistMessage)
        && packageJsonCache.State() == old(packageJsonCache.State())
        && packageJsonFilesMap == old(packageJsonFilesMap)
        && log.effects == old(log.effects)
      ensures eventKind == Changed ==>
        var path := toPath(fileName);
        && outcome == Pass
        && StatusOf(packageJsonCache.State(), DirectoryOf(path)) == (if path in Files() then True else False)
        && InfoOf(packageJsonCache.State(), DirectoryOf(path)) ==
             (if path in Files() then Some(PackageJsonInfo(path, Files()[path])) else None)
        && SameExcept(old(packageJsonCache.State()), packageJsonCache.State(), DirectoryOf(path))
        && packageJsonFilesMap == old(packageJsonFilesMap)
        && log.effects == old(log.effects) + Broadcast(projects, Some(path))
      ensures eventKind == Deleted ==>
        var path := toPath(fileName);
        && outcome == Pass
        && StatusOf(packageJsonCache.State(), DirectoryOf(path)) == Maybe
        && InfoOf(packageJsonCache.State(), DirectoryOf(path)) == None
        && SameExcept(old(packageJsonCache.State()), packageJsonCache.State(), DirectoryOf(path))
        && packageJsonFilesMap == old(packageJsonFilesMap) - {path}
        && log.effects == old(log.effects) + Broadcast(projects, Some(path))
             + (if path in old(packageJsonFilesMap) then CloseEffects(old(packageJsonFilesMap)[path]) else [])
    {
      var path := toPath(fileName);
      match eventKind
      case Created =>
        outcome := Fail(ExpectedToExistMessage);
      case Changed =>
        packageJsonCache.AddOrUpdate(path);
        InvalidateProjectPackageJson(Some(path));
        outcome := Pass;
      case Deleted =>
        packageJsonCache.Delete(path);
        InvalidateProjectPackageJson(Some(path));
        if path in packageJsonFilesMap {
          CloseWatcher(packageJsonFilesMap[path]);
        }
        packageJsonFilesMap := packageJsonFilesMap - {path};
        outcome := Pass;
    }

    /** `invalidateProjectPackageJson(packageJsonPath)`: one hook call per project, in the set's order. */
    method InvalidateProjectPackageJson(packageJsonPath: Option<Path>)
      modifies log
      ensures log.effects == old(log.effects) + Broadcast(projects, packageJsonPath)
    {
      var i := 0;
      while i < |projects|
        invariant 0 <= i <= |projects|
        invariant log.effects == old(log.effects) + Broadcast(projects[..i], packageJsonPath)
      {
        assert projects[..i + 1][..i] == projects[..i];
        log.effects := log.effects + [InvalidationHook(projects[i], packageJsonPath)];
        i := i + 1;
      }
      assert projects[..i] == projects;
    }

    /** `projects.add(project)`. */
    method AddProject(project: Project)
      requires Valid()
      modifies this`projects
      ensures Valid()
      ensures projects == Add(old(projects), project)
    {
      AddDistinct(projects, project);
      projects := Add(projects, project);
    }

    /** `projects.delete(project)`. */
    method DeleteProject(project: Project)
      requires Valid()
      modifies this`projects
      ensures Valid()
      ensures projects == Remove(old(projects), project)
    {
      RemoveDistinct(projects, project);
      projects := Remove(projects, project);
    }
  }
}
