# typescript-auto-import-cache, modelled in Dafny

This project models the core of `typescript-auto-import-cache`. The library gives
a TypeScript language service the package.json-based auto-import cache of
`tsserver`, without running a full server. It has three parts:

- **The project service** (`src/5_0/projectService.ts`). It finds the package.json
  files visible to a file by walking the file's ancestor directories. It watches
  each package.json it finds and reacts to the watcher's events. It broadcasts
  invalidations to every registered project.
- **The per-project containers** (`src/5_0/index.ts`). Every container shares one
  project service unless a service is supplied. The module also keeps a set of
  live projects. Each container has `setPreferences`, `projectUpdated` and
  `dispose`.
- **The version dispatcher** (`src/index.ts`). It picks an implementation by the
  running TypeScript version and gates `createProjectService` on TypeScript 5.0.

Files:

- `wrappers.dfy`: `Option` and `Result`.
- `ordered_sets.dfy`: JavaScript's insertion-ordered `Set`, as a sequence without duplicates.
- `paths.dfy`: paths as sequences of components, ancestor walks, and the root boundary.
- `package_json_cache.dfy`: the package.json cache as a three-valued map over directories, with the host's files on disk.
- `project_service.dfy`: the project service class, the walk as a fold over directories, the watcher registry and the broadcast.
- `project_containers.dfy`: the module state (singleton and project set) and the container class.
- `types.dfy`: the `ProjectContainer` interface.
- `semver.dfy`: the part of `semver` the dispatcher uses (strict `major.minor.patch` parsing, ordering and `gte`).
- `dispatcher.dfy`: `createLanguageService` and `createProjectService`.

The stateful code is written imperatively:

- The service's `packageJsonFilesMap` and `projects` are fields reassigned by methods.
- The walk is a loop in `ForEachAncestorDirectory` that calls a recursive `ProcessDirectory`.
- `projectUpdated` is a loop over the module's project set.

Each method is proved against a specification function: `WalkFold`, `Registered`,
`RegistrationEffects`, `Broadcast`, `DirtyMarks` or `SettingsHooks`. Lemmas then
state what the source promises about those functions.

Calls into projects are recorded in an `EffectLog`:
- `onPackageJsonChange`, `onAutoImportProviderSettingsChanged` and `markAsDirty`;
- watches started and closed.

Then "exactly one hook per project" becomes a count over the log.

## Model

| member | source | states |
|---|---|---|
| Paths.DirectoryOf | src/5_0/projectService.ts:86 | `getDirectoryPath` drops the last component, and the filesystem root is its own parent |
| Paths.PackageJsonPath | src/5_0/projectService.ts:76 | `combinePaths(directory, "package.json")` lies directly in `directory` and ends in `package.json` |
| Paths.PackageJsonPathInjective | src/5_0/projectService.ts:76-77 | distinct directories have distinct package.json paths, so each walked directory gets its own watcher key |
| Paths.Ancestors | src/5_0/projectService.ts:86 | `forEachAncestorDirectory` visits one directory per component plus the filesystem root, starting at the directory itself |
| Paths.AncestorsIndex | src/5_0/projectService.ts:86 | the i-th directory `forEachAncestorDirectory` visits is the start directory with its last i components dropped |
| Paths.AncestorsNearestFirst | src/5_0/projectService.ts:86 | the walk starts at the file's directory, ends at the filesystem root, and each directory is strictly shorter than the previous one |
| Paths.AncestorsSuffix | src/5_0/projectService.ts:72 | the ancestors of a walked directory are exactly the rest of the walk from it, which is the part a search from there reads |
| Paths.AncestorsClosed | src/5_0/projectService.ts:72-86 | every directory of the walk has all its ancestors later in the walk |
| Paths.WalkedDirectories | src/5_0/projectService.ts:81-86 | the directories processed when the walk stops after the first one equal to the root path, never more than the ancestors |
| Paths.WalkedShape | src/5_0/projectService.ts:81-86 | the directories processed are a prefix of the ancestor walk; none but possibly the last equals the root; a walk cut short ends on the root |
| Paths.WalkedPrefix | src/5_0/projectService.ts:81-86 | a loop that stops on the first directory equal to the root, or runs out, has processed exactly the walked directories |
| Paths.NoRootWalksToFilesystemRoot | src/5_0/projectService.ts:81-86 | without a root path the walk processes every ancestor, down to the filesystem root |
| Paths.RootBoundaryInclusive | src/5_0/projectService.ts:81-83 | with a root path that is an ancestor, the walk ends on the root, includes it, and processes no directory above it |
| Paths.UnreachedRootWalksEverything | src/5_0/projectService.ts:81-86 | a root path that is not an ancestor never stops the walk |
| PackageJsonCache.Cache.constructor | src/5_0/projectService.ts:147 | a new cache knows nothing: every directory is `Maybe` and has no info |
| PackageJsonCache.Cache.DirectoryHasPackageJson | src/5_0/projectService.ts:69 | the cache's three-valued answer for a directory, read from its state |
| PackageJsonCache.Cache.GetInDirectory | src/5_0/projectService.ts:78 | the cached info of a directory, read from its state |
| PackageJsonCache.Cache.SearchDirectoryAndAncestors | src/5_0/projectService.ts:72 | the search scans the directory and then its ancestors, nearest first, while they are unknown; the directory is no longer `Maybe` afterwards |
| PackageJsonCache.Resolve | src/5_0/projectService.ts:72 | one step of the search: the directory's status and info are read from the disk (its properties are ResolveExtends) |
| PackageJsonCache.ScanFrom | src/5_0/projectService.ts:72 | `searchDirectoryAndAncestors` on values: resolve the directories in order, stopping at the first one already known (its properties are ScanFromExtends, ScanFromResolvesAll) |
| PackageJsonCache.ResolveExtends | src/5_0/projectService.ts:72 | resolving one unknown directory only adds that directory's entry, read from the disk |
| PackageJsonCache.ScanFromExtends | src/5_0/projectService.ts:72 | a search keeps every entry it finds, only adds entries for the directories it scans, reads them from the disk, and resolves its first directory |
| PackageJsonCache.ScanFromResolvesAll | src/5_0/projectService.ts:72 | a search over directories that are all unknown resolves every one of them |
| PackageJsonCache.Cache.AddOrUpdate | src/5_0/projectService.ts:116 | after `addOrUpdate(path)` the directory is `True` with the file's content if the file exists, `False` otherwise; no other directory changes |
| PackageJsonCache.Cache.Delete | src/5_0/projectService.ts:120 | after `delete(path)` the directory is unknown again and has no info; no other directory changes |
| ProjectService.CallsToConcat | src/5_0/projectService.ts:133-142 | calls on a project in two logs that follow each other add up |
| ProjectService.Broadcast | src/5_0/projectService.ts:133-142 | the broadcast makes one call per registered project |
| ProjectService.BroadcastPointwise | src/5_0/projectService.ts:133-142 | the i-th call of the broadcast is on the i-th project: `onPackageJsonChange(path)` for a non-empty path, `onAutoImportProviderSettingsChanged` otherwise |
| ProjectService.BroadcastExactlyOnce | src/5_0/projectService.ts:133-142 | every registered project receives exactly one hook call and no other project receives any |
| ProjectService.ProjectService.InvalidateProjectPackageJson | src/5_0/projectService.ts:133-142 | the log gains exactly the broadcast over the service's projects |
| ProjectService.Registered | src/5_0/projectService.ts:102-106 | after registration the path is watched |
| ProjectService.RegisteredContents | src/5_0/projectService.ts:103-129 | registration adds the path's key and nothing else, keeps existing watchers, and gives a new path the factory's watcher |
| ProjectService.RegistrationIdempotent | src/5_0/projectService.ts:104 | registering a path twice equals registering it once, and the second registration makes no call; the map grows by one entry exactly for a new path |
| ProjectService.RegistrationBroadcastsOnce | src/5_0/projectService.ts:104-106 | registering a new path makes exactly one invalidation call on each registered project |
| ProjectService.WatcherFor | src/5_0/projectService.ts:106-129 | the handle `watchFile` returns is a host watcher on exactly that path for a host factory, the no-op watcher otherwise |
| ProjectService.WatchEffects | src/5_0/projectService.ts:108-128 | the host factory records one watch start on that path at the polling interval 250; the no-op factory records nothing |
| ProjectService.RegistrationEffects | src/5_0/projectService.ts:102-131 | a known path makes no call; a new one makes one broadcast call per project and, with a host factory, one watch start |
| ProjectService.RegisterAllContents | src/5_0/projectService.ts:75-77 | registering a list of paths watches exactly the old keys plus those paths, keeping old watchers |
| ProjectService.ProjectService.WatchFile | src/5_0/projectService.ts:108-128 | `watchFactory.watchFile` returns the factory's watcher for the path; a host factory records that a watch started at the low polling interval, the no-op factory records nothing |
| ProjectService.ProjectService.CloseWatcher | src/5_0/projectService.ts:122 | closing a watcher records the close, and the no-op watcher records nothing |
| ProjectService.ProjectService.WatchPackageJsonFile | src/5_0/projectService.ts:102-131 | the map becomes the registration of the path; the log gains the invalidation and the watch start for a new path and nothing for a known one |
| ProjectService.ProjectService.OnPackageJsonFileEvent | src/5_0/projectService.ts:110-124 | Created throws `Expected package.json to exist already` and changes nothing. Changed updates only that directory from the disk, broadcasts, and keeps the map. Deleted forgets only that directory, broadcasts, closes and removes its watcher when present; so a repeated Deleted closes nothing and leaves the map as it is |
| ProjectService.ProjectService.IncludePackageJsonAutoImports | src/5_0/projectService.ts:90-96 | `'on'` gives On, `'off'` gives Off, anything else (including absent) gives Auto, in both directions |
| ProjectService.ProjectService.constructor | src/5_0/projectService.ts:20-47 | the service keeps the helpers and the host configuration it was given; it uses the supplied watch factory or the no-op one; it starts with an empty cache, no watchers and no projects |
| ProjectService.ProjectService.RootPathOf | src/5_0/projectService.ts:65 | an absent or empty `rootDir` gives no root path; otherwise the root path is `toPath(rootDir)` |
| ProjectService.StepCache | src/5_0/projectService.ts:69-73 | the cache after the `Maybe` case: a search of the directory's ancestors, nothing for a known directory (ProcessStepResolves states what it achieves) |
| ProjectService.VisitResolved | src/5_0/projectService.ts:74-80 | a resolved `True` directory has its package.json registered and its info, if any, appended; a `False` one changes nothing (ProcessStepResolves) |
| ProjectService.ProcessStep | src/5_0/projectService.ts:68-84 | `processDirectory` on values: search if unknown, then visit the resolved directory (ProcessStepResolves, WalkFoldCache) |
| ProjectService.ProcessStepResolves | src/5_0/projectService.ts:68-84 | after one step the directory is resolved, the cache has only grown, the result has been extended by at most one info, and a `True` directory's package.json is watched |
| ProjectService.WalkFold | src/5_0/projectService.ts:63-88 | the walk on values, one step per processed directory, nearest first (its properties are WalkFoldCache, WalkFoldListing and WalkFoldOutcome) |
| ProjectService.WalkFoldNext | src/5_0/projectService.ts:86 | processing the next directory extends the walk by that directory |
| ProjectService.ProjectService.ProcessResolved | src/5_0/projectService.ts:75-83 | a `True` directory has its package.json watched and its info, if any, pushed; the walk stops exactly on the root path |
| ProjectService.ProjectService.ProcessDirectory | src/5_0/projectService.ts:68-84 | a `Maybe` directory is searched from once and processed again, two visits in all, never three; a known one is visited once; the walk stops exactly on the root path; the new state is the step function applied to the old |
| ProjectService.ProjectService.ForEachAncestorDirectory | src/5_0/projectService.ts:86 | the loop processes exactly the walked directories, in order, and ends in the state of the walk fold over them |
| ProjectService.ProjectService.GetPackageJsonsVisibleToFile | src/5_0/projectService.ts:63-88 | the result, watchers, calls and cache are those of the walk over the file's ancestors up to the root; the walk outcome below holds |
| ProjectService.WalkFoldOutcome | src/5_0/projectService.ts:63-88 | every walked directory is resolved; the cache only gains entries for ancestors, read from the disk; the result lists the cached infos of the walked `True` directories; each of their package.json files is watched; searches start only from distinct unknown directories, and from the first one only when all were unknown |
| ProjectService.WalkFoldCache | src/5_0/projectService.ts:71-73 | after each step every processed directory is resolved and the cache only grew from the disk |
| ProjectService.WalkFoldSingleSearch | src/5_0/projectService.ts:71-73 | on a cold cache one search from the file's directory resolves all its ancestors, including those above the root that the walk never processes, so no later directory is searched from |
| ProjectService.SearchReadsAboveRoot | src/5_0/projectService.ts:72-83 | for a file in `/a/b` with root `/a`, a package.json only at `/` and a cold cache, the walk processes `/a/b` and `/a` and lists nothing, yet the cache afterwards holds `/`'s package.json: the search is not bounded by the root |
| ProjectService.WalkFoldListing | src/5_0/projectService.ts:75-79 | the result, watchers and calls of a walk are the listing and registration of its `True` directories, read off the final cache |
| ProjectService.TruePathsMembership | src/5_0/projectService.ts:75-77 | the watched package.json paths are exactly those of the walked `True` directories |
| ProjectService.TruePathsDistinct | src/5_0/projectService.ts:75-77 | no package.json path is registered twice by one walk |
| ProjectService.ListingStable | src/5_0/projectService.ts:75-79 | the listing depends only on the cache entries of the walked directories |
| ProjectService.CollectSources | src/5_0/projectService.ts:75-79 | every listed info is the cached info of a walked `True` directory |
| ProjectService.CollectComplete | src/5_0/projectService.ts:75-79 | every walked `True` directory with cached info has that info listed |
| ProjectService.CollectOrdered | src/5_0/projectService.ts:75-86 | the listed infos are nearest directory first, at most one per directory |
| ProjectService.ProjectService.AddProject | src/5_0/index.ts:48 | `projectService.projects.add(project)` |
| ProjectService.ProjectService.DeleteProject | src/5_0/index.ts:88 | `projectService.projects.delete(project)` keeps the set valid |
| OrderedSets.Add | src/5_0/index.ts:48-62 | `Set.add(x)`: afterwards `x` is present, and the set grows by one exactly when `x` was absent (AddContents: it is appended at the end and nothing else changes) |
| OrderedSets.AddContents | src/5_0/index.ts:48 | `Set.add` holds the element and the old ones, nothing else, keeps them distinct and appends a new element at the end |
| OrderedSets.Remove | src/5_0/index.ts:87-88 | `Set.delete(x)`: afterwards `x` is absent and the set never grows (RemoveContents and RemoveDistinct: the other elements stay, in their order) |
| OrderedSets.RemoveContents | src/5_0/index.ts:87-88 | `Set.delete` removes the element, keeps every other one, and adds nothing |
| OrderedSets.RemoveDistinct | src/5_0/index.ts:87-88 | `Set.delete` keeps the set distinct and shrinks it by one when the element was present |
| OrderedSets.RemoveAfterAdd | src/5_0/index.ts:48-88 | adding an absent project and deleting it again restores the set |
| ProjectContainers.ContainerModule.constructor | src/5_0/index.ts:7-8 | the module starts with no singleton and an empty project set |
| ProjectContainers.ContainerModule.SelectService | src/5_0/index.ts:20-35 | a supplied service is used as is and the singleton is untouched; else an existing singleton is reused; else a fresh singleton is created, with this call's host configuration, the no-op watch factory and no projects |
| ProjectContainers.ContainerModule.RegisterProject | src/5_0/index.ts:48-62 | the project is added to the service's set and to the module's set |
| ProjectContainers.ContainerModule.CreateContainer | src/5_0/index.ts:10-65 | the container wraps a fresh project starting with `includePackageJsonAutoImports: 'auto'`. A supplied or existing service is reused, the singleton is kept, and that service's set gains the project. Otherwise the call creates the singleton with the no-op watch factory. The module's set gains the project |
| ProjectContainers.Container.constructor | src/5_0/index.ts:64-65 | the container keeps its module, project, service and configuration, and its `languageService` is the project's |
| ProjectContainers.Container.SetPreferences | src/5_0/index.ts:66-72 | the preferences are always replaced, and the log gains the settings hook of the container's project exactly when the auto-import option changed |
| ProjectContainers.SettingsHooks | src/5_0/index.ts:67-71 | at most one call, always the settings hook of the container's project, and none when the preferences are the same |
| ProjectContainers.SettingsHooksIff | src/5_0/index.ts:67-71 | the container's project gets one settings call exactly when the option changed, and no other project gets any |
| ProjectContainers.SettingsHooksRepeat | src/5_0/index.ts:67 | setting the same preferences again calls no hook |
| ProjectContainers.Container.ProjectUpdated | src/5_0/index.ts:73-84 | the log gains the `markAsDirty` calls on qualifying projects, in the module set's order |
| ProjectContainers.RealPaths | src/5_0/index.ts:77-78 | the normalised real-path keys of the symlink cache, one per key, and none without a symlink cache |
| ProjectContainers.Normalized | src/5_0/index.ts:77-78 | normalising the real-path keys keeps one entry per key |
| ProjectContainers.NormalizedMembership | src/5_0/index.ts:77-78 | a name is among the normalised keys exactly when some key normalises to it |
| ProjectContainers.MarksDirty | src/5_0/index.ts:75-80 | a marked project is never the caller's own and always has a symlink cache (MarksDirtyIff gives both directions) |
| ProjectContainers.MarksDirtyIff | src/5_0/index.ts:75-82 | a project is marked exactly when it is not the caller, has an auto-import provider host and a symlink cache, and one of its real-path keys normalises to the canonical path; a project without a symlink cache is never marked |
| ProjectContainers.DirtyMarks | src/5_0/index.ts:74-83 | no more marks than projects in the set (DirtyMarksExactlyOnce gives one per qualifying project) |
| ProjectContainers.DirtyMarksSound | src/5_0/index.ts:74-83 | every call made is a `markAsDirty` on a project of the set that qualifies, never the caller's own |
| ProjectContainers.DirtyMarksExactlyOnce | src/5_0/index.ts:74-83 | each qualifying project is marked exactly once and every other project not at all |
| ProjectContainers.Container.Dispose | src/5_0/index.ts:86-89 | the project leaves the module's set and its service's set, which stay valid; nothing else changes |
| Semver.Compare | src/index.ts:19 | `semver.compare`: -1, 0 or 1 exactly as the first version is lower, equal or higher |
| Semver.ParseVersion | src/index.ts:19-35 | a version string parses exactly when it has three dot-separated numeric identifiers |
| Semver.ShowNumeric | src/index.ts:19-35 | the decimal form of a number is a numeric identifier with that value |
| Semver.NumericShow | src/index.ts:19-35 | a numeric identifier is the decimal form of its value |
| Semver.JoinSplit | src/index.ts:19-35 | splitting on dots and joining again gives the string back |
| Semver.ParseFormat | src/index.ts:19-35 | formatting a version and parsing the result gives the version back |
| Semver.FormatParse | src/index.ts:19-35 | a string that parses is the formatted form of its version: the strict form is canonical |
| Semver.Gte | src/index.ts:19 | `semver.gte` throws `Invalid Version` exactly when the threshold is not strict, and otherwise answers `compare(version, threshold) >= 0`, whether the version is not below it |
| Dispatcher.Rank | src/index.ts:19-40 | strategies are ranked from 0 (the plain service) to 5 (5.3) |
| Dispatcher.Select | src/index.ts:19-40 | the chain answers the plain service when empty, only throws on one of its thresholds, and only picks one of its strategies |
| Dispatcher.ChainThresholds | src/index.ts:19-35 | the five thresholds `5.3.0`, `5.0.0`, `4.7.0`, `4.4.0`, `4.0.0`, tested in that order, parse to their triples |
| Dispatcher.SelectStep | src/index.ts:19-35 | one test of the chain picks its strategy when the version reaches its threshold and otherwise passes to the next test |
| Dispatcher.SelectShape | src/index.ts:19-40 | a chain of that shape never throws and picks a strategy that serves the version |
| Dispatcher.SelectServes | src/index.ts:19-40 | `createLanguageService` never throws on its thresholds, and it picks a strategy exactly when that strategy serves the version: at least 5.3.0 gives 5.3, at least 5.0.0 gives 5.0, and so on, down to the plain service below 4.0.0 |
| Dispatcher.ServesUnique | src/index.ts:19-40 | exactly one strategy serves each version |
| Dispatcher.ServesMonotone | src/index.ts:19-40 | the version ranges are in order of rank |
| Dispatcher.SelectMonotone | src/index.ts:19-40 | a higher version never selects an older strategy than a lower version does |
| Dispatcher.CreateLanguageService | src/index.ts:12-41 | the dispatch succeeds exactly when the chain does, and otherwise propagates its error |
| Dispatcher.DispatchFor | src/index.ts:19-40 | a 5.x strategy returns a project-backed container with `dispose` and does not call the host's factory itself (the 5.x containers receive it and pass it to `createProject` and `initProject`); the others call it, and only the 4.x ones apply a patch |
| Dispatcher.Dispatches | src/index.ts:12-41 | the container and calls are those of the strategy that serves the version |
| Dispatcher.ContainerMembers | src/index.ts:19-40 | from 5.0.0 on the container is project-backed and has `setPreferences`, `projectUpdated` and `dispose`; below 5.0.0 it has only `languageService` |
| Dispatcher.PatchedRange | src/index.ts:25-39 | for 4.0.0 up to 5.0.0 the host's factory is called once, the 4.7, 4.4 or 4.0 patch is applied to that same service, and that service is returned |
| Dispatcher.PlainRange | src/index.ts:40 | below 4.0.0 the host's service is created once and returned unpatched |
| Dispatcher.DelegatedRange | src/index.ts:19-24 | from 5.0.0 on the call is delegated to the 5.x containers, to 5.3's exactly from 5.3.0, and the host's factory is not called here |
| Dispatcher.CreateProjectService | src/index.ts:43-54 | `createProjectService` throws exactly when its gate is not a strict version; otherwise it delegates exactly when the version is not below the gate, and returns `undefined` otherwise |
| Dispatcher.CreateProjectServiceAlwaysThrows | src/index.ts:51 | with the gate as written, `"5.0"`, it throws `Invalid Version: 5.0` for every TypeScript version |
| Dispatcher.CreateProjectServiceDelegates | src/index.ts:51-53 | with the strict gate `"5.0.0"` it never throws, delegates exactly from 5.0.0 on (and otherwise returns `undefined`), and agrees with the versions whose containers have `dispose` |

## Left out

- `packageJsonCache.ts` is not part of this model. The cache is a three-valued map with host files on disk. Its operations carry the postconditions the callers rely on:
  - a search scans the directory and its unknown ancestors, nearest first;
  - `addOrUpdate` re-reads one file;
  - `delete` makes a directory unknown again.
- The TypeScript path helpers are constructor parameters and are not modelled: `toPath`, `getNormalizedAbsolutePath` and `createGetCanonicalFileName(useCaseSensitiveFileNames)`. Paths are sequences of components, `getDirectoryPath` drops the last one, and `combinePaths(d, "package.json")` appends one.
- `forEachAncestorDirectory` is the loop over `Ancestors(directory)`, the directory first and the filesystem root last.
- An empty `rootDir` and an empty `packageJsonPath` are modelled as `None`. Their falsy tests (src/5_0/projectService.ts:65, 135) become `Some`/`None` tests.
- The cache search is not bounded by `rootDir`: `searchDirectoryAndAncestors` at src/5_0/projectService.ts:72 gets no root, so on a cold cache it reads and caches the package.json status of the root's ancestors too, although the walk processes and lists none of them. The model follows the code; SearchReadsAboveRoot shows it on an example, and WalkOutcome only bounds the cache's growth by the whole ancestor walk.
- File watching is not modelled:
  - `watchFactory.watchFile` returns a watcher handle and records the start;
  - the polling interval `250` is recorded in the log with each watch start but has no timing effect;
  - the directory watcher of the factory is unused by the core;
  - event delivery is an explicit call to `OnPackageJsonFileEvent`.
- `packageJsonFilesMap` is created up front, as an empty map, rather than lazily on the first watch (src/5_0/projectService.ts:103). Nothing reads it before then.
- The service's other members are not modelled: `serverMode`, `host`, `currentDirectory`, `getExecutingFilePath` and `fileExists`. They are forwarders to `ts` and `sys` that the modelled operations do not use.
- `createProject` and `initProject` (`project.ts`, `5_3/project.ts`) are not part of this model. A project is given its language service when it is made. Whether it has an auto-import provider host, and its symlink cache's real-path keys, are fixed per project in the model (`const` fields). The source reads `project.autoImportProviderHost` and the symlink cache again on every `projectUpdated` call (src/5_0/index.ts:75, 77); how they change over a project's life is not modelled. The host's `createLanguageService` is passed to them (src/index.ts:20, 23; src/5_0/index.ts:37-40, 61); whether they call it is not modelled, and `Delegated(s)` stands for that hand-off.
- The copying of the eight project methods onto `host` (src/5_0/index.ts:50-60) is not modelled. It is a binding with no state of its own.
- The 4.0, 4.4 and 4.7 patches are not part of this model; they are recorded as the call `Patched(strategy, service)`.
- `src/5_3/index.ts` delegates to the 5.0 containers with 5.3's `createProject`. That delegation is the strategy `Ts53`.
- Project hooks are recorded in the log and assumed not to throw. Errors thrown by the hooks are not modelled.
- `Semver.Gte`: `ts.version` is a version triple. Prerelease tags, build metadata, a leading `v`, surrounding whitespace and `semver`'s loose mode are not modelled. The thresholds are parsed in strict form, the form `semver.gte` requires.

## Findings

| source | as written | input that shows it | evidently intended | confidence | as-written member | corrected member |
|---|---|---|---|---|---|---|
| src/index.ts:51 | `semver.gte(ts.version, '5.0')` passes a two-part version. `semver` rejects it with `Invalid Version: 5.0`, so `createProjectService` throws for every TypeScript version | any version, e.g. 5.3.2: `"5.0"` splits into two parts, and `gte` fails before comparing | gate at `5.0.0`: delegate from TypeScript 5.0.0 on, return `undefined` before | not executed; high, from `semver`'s strict parsing | Dispatcher.CreateProjectServiceAlwaysThrows | Dispatcher.CreateProjectServiceDelegates |
