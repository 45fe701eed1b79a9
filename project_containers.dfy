/**
 * The per-project containers of src/5_0/index.ts: one project service shared
 * by every container unless the caller supplies one, a module-level set of
 * live projects, and each container's `setPreferences`, `projectUpdated` and
 * `dispose`.
 */
module ProjectContainers {
  import opened Wrappers
  import opened OrderedSets
  import opened Paths
  import opened PackageJsonCache
  import opened ProjectService
  import opened Types

  /** The preferences every container starts with: `includePackageJsonAutoImports: 'auto'`. */
  const InitialPreferences := UserPreferences(Some("auto"), map[])

  /** `ProjectOptions`: a project service the caller may supply. */
  datatype ProjectOptions = ProjectOptions(projectService: Option<ProjectService>)

  /**
   * What `createProjectService` derives from `ts`, `sys` and the host's
   * current directory: the path helpers and the files on disk.
   */
  datatype SystemBindings = SystemBindings(
    toPath: string -> Path,
    toCanonicalFileName: string -> string,
    getNormalizedAbsolutePath: string -> string,
    host: HostFileSystem)

  /**
   * What `createProject` (which is not part of this model) gives the new
   * project: its language service, whether it has an auto-import provider
   * host, and its symlink cache's real-path keys if it has a symlink cache.
   */
  datatype ProjectShape = ProjectShape(
    languageService: LanguageService,
    hasAutoImportProviderHost: bool,
    symlinkedDirectoriesByRealpath: Option<seq<string>>)

  /** `[...keys].map(name => normalize(name))`. */
  function Normalized(keys: seq<string>, normalize: string -> string): (r: seq<string>)
    ensures |r| == |keys|
    decreases |keys|
  {
    if keys == [] then [] else Normalized(keys[..|keys| - 1], normalize) + [normalize(keys[|keys| - 1])]
  }

  /** A name is among the normalised keys exactly when some key normalises to it. */
  lemma {:induction false} NormalizedMembership(keys: seq<string>, normalize: string -> string, name: string)
    ensures name in Normalized(keys, normalize) <==> exists k :: k in keys && normalize(k) == name
    decreases |keys|
  {
    if keys != [] {
      var init := keys[..|keys| - 1];
      var last := keys[|keys| - 1];
      NormalizedMembership(init, normalize, name);
      assert keys == init + [last];
      if name in Normalized(keys, normalize) && name != normalize(last) {
        var k :| k in init && normalize(k) == name;
        assert k in keys;
      }
      if exists k :: k in keys && normalize(k) == name {
        var k :| k in keys && normalize(k) == name;
        if k != last {
          assert k in init;
        }
      }
    }
  }

  /** The normalised real paths of `project`'s symlink cache; none without one. */
  function RealPaths(project: Project): (r: seq<string>)
    ensures project.symlinkedDirectoriesByRealpath.None? ==> r == []
    ensures project.symlinkedDirectoriesByRealpath.Some? ==> |r| == |project.symlinkedDirectoriesByRealpath.value|
  {
    Normalized(
      if project.symlinkedDirectoriesByRealpath.Some? then project.symlinkedDirectoriesByRealpath.value else [],
      project.projectService.getNormalizedAbsolutePath)
  }

  /** Does `projectUpdated(path)`, called on `updater`'s container, mark `project` dirty? */
  predicate MarksDirty(project: Project, updater: Project, path: string): (r: bool)
    ensures r ==> project != updater && project.symlinkedDirectoriesByRealpath.Some?
  {
    && project != updater
    && project.hasAutoImportProviderHost
    && project.projectService.toCanonicalFileName(path) in RealPaths(project)
  }

  /**
   * A project is marked exactly when it is another project with an auto-import
   * provider host and a symlink cache, one of whose real-path keys normalises
   * to the canonical form of the path.
   */
  lemma MarksDirtyIff(project: Project, updater: Project, path: string)
    ensures MarksDirty(project, updater, path) <==>
      && project != updater
      && project.hasAutoImportProviderHost
      && project.symlinkedDirectoriesByRealpath.Some?
      && exists k :: k in project.symlinkedDirectoriesByRealpath.value &&
                     project.projectService.getNormalizedAbsolutePath(k) == project.projectService.toCanonicalFileName(path)
  {
    var keys := if project.symlinkedDirectoriesByRealpath.Some? then project.symlinkedDirectoriesByRealpath.value else [];
    NormalizedMembership(keys, project.projectService.getNormalizedAbsolutePath, project.projectService.toCanonicalFileName(path));
  }

  /** The `markAsDirty` calls of `projectUpdated(path)` on `updater`'s container, in the set's order. */
  function DirtyMarks(projects: seq<Project>, updater: Project, path: string): (r: seq<Effect>)
    ensures |r| <= |projects|
    decreases |projects|
  {
    if projects == [] then []
    else
      var last := projects[|projects| - 1];
      DirtyMarks(projects[..|projects| - 1], updater, path) + (if MarksDirty(last, updater, path) then [MarkedAsDirty(last)] else [])
  }

  /** Each call `projectUpdated` makes marks a listed project that qualifies. */
  lemma {:induction false} DirtyMarksSound(projects: seq<Project>, updater: Project, path: string)
    ensures forall k :: 0 <= k < |DirtyMarks(projects, updater, path)| ==>
      && DirtyMarks(projects, updater, path)[k].MarkedAsDirty?
      && DirtyMarks(projects, updater, path)[k].project in projects
      && MarksDirty(DirtyMarks(projects, updater, path)[k].project, updater, path)
    decreases |projects|
  {
    if projects != [] {
      var init := projects[..|projects| - 1];
      DirtyMarksSound(init, updater, path);
      var r := DirtyMarks(projects, updater, path);
      var r0 := DirtyMarks(init, updater, path);
      forall k | 0 <= k < |r| ensures r[k].MarkedAsDirty? && r[k].project in projects && MarksDirty(r[k].project, updater, path) {
        if k < |r0| {
          assert r[k] == r0[k];
          assert r0[k].project in init;
        }
      }
    }
  }

  /**
   * Over a set of distinct projects, `projectUpdated` calls one hook on each
   * project that qualifies and none on any other: never on the calling
   * project, a project without an auto-import provider host, or a project
   * outside the set.
   */
  lemma {:induction false} DirtyMarksExactlyOnce(projects: seq<Project>, updater: Project, path: string, project: Project)
    requires Distinct(projects)
    ensures CallsTo(DirtyMarks(projects, updater, path), project) ==
      if project in projects && MarksDirty(project, updater, path) then 1 else 0
    decreases |projects|
  {
    if projects != [] {
      var init := projects[..|projects| - 1];
      var last := projects[|projects| - 1];
      assert projects == init + [last];
      assert Distinct(init);
      DirtyMarksExactlyOnce(init, updater, path, project);
      var tail := if MarksDirty(last, updater, path) then [MarkedAsDirty(last)] else [];
      CallsToConcat(DirtyMarks(init, updater, path), tail, project);
      assert CallsTo(tail, project) == if MarksDirty(last, updater, path) && last == project then 1 else 0 by {
        if tail != [] {
          assert tail[..0] == [];
        }
      }
      if last == project {
        assert project !in init;
      }
    }
  }

  /** The hook `setPreferences(next)` calls after `previous`: settings change iff the auto-import option changes. */
  function SettingsHooks(previous: UserPreferences, next: UserPreferences, project: Project): (r: seq<Effect>)
    ensures |r| <= 1
    ensures forall k :: 0 <= k < |r| ==> r[k] == AutoImportProviderSettingsChanged(project)
    ensures previous == next ==> r == []
  {
    if next.includePackageJsonAutoImports != previous.includePackageJsonAutoImports
    then [AutoImportProviderSettingsChanged(project)] else []
  }

  /** One settings hook on the container's project when the option changes, none otherwise, on no other project. */
  lemma SettingsHooksIff(previous: UserPreferences, next: UserPreferences, project: Project, other: Project)
    ensures CallsTo(SettingsHooks(previous, next, project), project) == 1 <==>
      next.includePackageJsonAutoImports != previous.includePackageJsonAutoImports
    ensures other != project ==> CallsTo(SettingsHooks(previous, next, project), other) == 0
  {
    var r := SettingsHooks(previous, next, project);
    if r != [] {
      assert r[..0] == [];
    }
  }

  /** Setting the same preferences again calls no hook. */
  lemma SettingsHooksRepeat(preferences: UserPreferences, project: Project)
    ensures SettingsHooks(preferences, preferences, project) == []
  {
  }

  /** The module's state: the shared service once created, and every live project. */
  class ContainerModule {
    /** `projectServiceSingleton`: created by the first call that is not given a service. */
    var projectServiceSingleton: ProjectService?
    /** The module-level `projects` set. */
    var projects: seq<Project>
    /** Where the hook calls of the containers' projects are recorded. */
    const log: EffectLog

    ghost predicate Valid()
      reads this, projectServiceSingleton, if projectServiceSingleton != null then {projectServiceSingleton.packageJsonCache} else {}
    {
      && Distinct(projects)
      && (projectServiceSingleton != null ==> projectServiceSingleton.Valid())
    }

    /** The module as loaded: no singleton, no projects. */
    constructor (log: EffectLog)
      ensures Valid() && projectServiceSingleton == null && projects == [] && this.log == log
    {
      projectServiceSingleton := null;
      projects := [];
      this.log := log;
    }

    /**
     * `createProjectService(ts, sys, host.getCurrentDirectory(), hostConfiguration, ..., {})`:
     * the helpers of `bindings`, the given host configuration, the no-op watch
     * factory, this module's log, and no watchers yet.
     */
    ghost predicate BuiltFrom(service: ProjectService, bindings: SystemBindings, hostConfiguration: HostConfiguration)
      reads service`packageJsonFilesMap
    {
      && service.hostConfiguration == hostConfiguration
      && service.watchFactory == NoopWatchFactory
      && service.toPath == bindings.toPath
      && service.toCanonicalFileName == bindings.toCanonicalFileName
      && service.getNormalizedAbsolutePath == bindings.getNormalizedAbsolutePath
      && service.packageJsonCache.host == bindings.host
      && service.log == log
      && service.packageJsonFilesMap == map[]
    }

    /** The service a call with `options` uses, when it exists before the call. */
    function ServiceFor(options: Option<ProjectOptions>): ProjectService?
      reads this
    {
      if options.Some? && options.value.projectService.Some? then options.value.projectService.value
      else projectServiceSingleton
    }

    /**
     * The default export: a supplied service is used as is; otherwise the
     * singleton, created on the first such call with this call's host
     * configuration and the no-op watch factory. The new project is added to
     * the service's set and to the module's set.
     */
    method CreateContainer(bindings: SystemBindings, options: Option<ProjectOptions>, shape: ProjectShape)
      returns (c: Container)
      requires Valid()
      requires ServiceFor(options) != null ==> ServiceFor(options).Valid()
      modifies this`projectServiceSingleton, this`projects
      modifies if ServiceFor(options) != null then {ServiceFor(options)} else {}
      ensures Valid() && c.projectService.Valid()
      ensures fresh(c) && fresh(c.project) && fresh(c.hostConfiguration)
      ensures c.owner == this
      ensures c.hostConfiguration.preferences == InitialPreferences
      ensures c.project.projectService == c.projectService
      ensures c.project.languageService == shape.languageService && c.languageService == shape.languageService
      ensures c.project.hasAutoImportProviderHost == shape.hasAutoImportProviderHost
      ensures c.project.symlinkedDirectoriesByRealpath == shape.symlinkedDirectoriesByRealpath
      ensures old(ServiceFor(options)) != null ==>
        && c.projectService == old(ServiceFor(options))
        && projectServiceSingleton == old(projectServiceSingleton)
        && c.projectService.projects == Add(old(ServiceFor(options).projects), c.project)
        && unchanged(c.projectService`packageJsonFilesMap)
      ensures old(ServiceFor(options)) == null ==>
        && fresh(projectServiceSingleton) && c.projectService == projectServiceSingleton
        && BuiltFrom(c.projectService, bindings, c.hostConfiguration)
        && c.projectService.projects == [c.project]
      ensures projects == Add(old(projects), c.project)
    {
      var hostConfiguration := new HostConfiguration(InitialPreferences);
      var projectService := SelectService(bindings, options, hostConfiguration);
      var project := new Project(projectService, shape.languageService,
                                 shape.hasAutoImportProviderHost, shape.symlinkedDirectoriesByRealpath);
      RegisterProject(projectService, project);
      c := new Container(this, project, projectService, hostConfiguration);
    }

    /** `projectService.projects.add(project)` and `projects.add(project)`. */
    method RegisterProject(projectService: ProjectService, project: Project)
      requires Valid() && projectService.Valid()
      modifies this`projects, projectService`projects
      ensures Valid() && projectService.Valid()
      ensures projects == Add(old(projects), project)
      ensures projectService.projects == Add(old(projectService.projects), project)
    {
      projectService.AddProject(project);
      AddDistinct(projects, project);
      projects := Add(projects, project);
    }

    /**
     * The service of a call: the supplied one, else the singleton, which the
     * first such call creates with its own host configuration and empty options.
     */
    method SelectService(bindings: SystemBindings, options: Option<ProjectOptions>, hostConfiguration: HostConfiguration)
      returns (projectService: ProjectService)
      requires Valid()
      requires ServiceFor(options) != null ==> ServiceFor(options).Valid()
      modifies this`projectServiceSingleton
      ensures Valid() && projectService.Valid()
      ensures old(ServiceFor(options)) != null ==>
        projectService == old(ServiceFor(options)) && projectServiceSingleton == old(projectServiceSingleton)
      ensures old(ServiceFor(options)) == null ==>
        && fresh(projectServiceSingleton) && fresh(projectService.packageJsonCache)
        && projectService == projectServiceSingleton
        && BuiltFrom(projectService, bindings, hostConfiguration)
        && projectService.projects == []
    {
      if options.Some? && options.value.projectService.Some? {
        projectService := options.value.projectService.value;
      } else {
        if projectServiceSingleton == null {
          projectServiceSingleton := new ProjectService(bindings.toPath, bindings.toCanonicalFileName,
            bindings.getNormalizedAbsolutePath, bindings.host, hostConfiguration,
            Some(ProjectServiceOptions(None)), log);
        }
        projectService := projectServiceSingleton;
      }
    }
  }

  /** The object the default export returns, with the closures over its project. */
  class Container {
    const owner: ContainerModule
    const project: Project
    const projectService: ProjectService
    /** This call's `hostConfiguration`; the shared service keeps the first call's. */
    const hostConfiguration: HostConfiguration
    /** `project.languageService!`. */
    const languageService: LanguageService

    constructor (owner: ContainerModule, project: Project, projectService: ProjectService, hostConfiguration: HostConfiguration)
      ensures this.owner == owner && this.project == project
      ensures this.projectService == projectService && this.hostConfiguration == hostConfiguration
      ensures languageService == project.languageService
    {
      this.owner := owner;
      this.project := project;
      this.projectService := projectService;
      this.hostConfiguration := hostConfiguration;
      languageService := project.languageService;
    }

    /**
     * `setPreferences(newPreferences)`: the preferences are always replaced;
     * the project's settings hook is called when the auto-import option changed.
     */
    method SetPreferences(newPreferences: UserPreferences)
      modifies hostConfiguration, owner.log
      ensures hostConfiguration.preferences == newPreferences
      ensures owner.log.effects == old(owner.log.effects) + SettingsHooks(old(hostConfiguration.preferences), newPreferences, project)
    {
      var onAutoImportProviderSettingsChanged :=
        newPreferences.includePackageJsonAutoImports != hostConfiguration.preferences.includePackageJsonAutoImports;
      hostConfiguration.preferences := newPreferences;
      if onAutoImportProviderSettingsChanged {
        owner.log.effects := owner.log.effects + [AutoImportProviderSettingsChanged(project)];
      }
    }

    /** `projectUpdated(path)`: marks dirty, in the module set's order, every project that qualifies. */
    method ProjectUpdated(path: string)
      modifies owner.log
      ensures owner.log.effects == old(owner.log.effects) + DirtyMarks(owner.projects, project, path)
    {
      var projects := owner.projects;
      var i := 0;
      while i < |projects|
        invariant 0 <= i <= |projects|
        invariant owner.log.effects == old(owner.log.effects) + DirtyMarks(projects[..i], project, path)
      {
        assert projects[..i + 1][..i] == projects[..i];
        var projectToUpdate := projects[i];
        if projectToUpdate != project && projectToUpdate.hasAutoImportProviderHost {
          var keys := if projectToUpdate.symlinkedDirectoriesByRealpath.Some?
                      then projectToUpdate.symlinkedDirectoriesByRealpath.value else [];
          var realPaths := Normalized(keys, projectToUpdate.projectService.getNormalizedAbsolutePath);
          if projectToUpdate.projectService.toCanonicalFileName(path) in realPaths {
            owner.log.effects := owner.log.effects + [MarkedAsDirty(projectToUpdate)];
          }
        }
        i := i + 1;
      }
      assert projects[..i] == projects;
    }

    /** `dispose()`: the project leaves the module's set and its service's set; nothing else changes. */
    method Dispose()
      requires owner.Valid() && projectService.Valid()
      modifies owner`projects, projectService`projects
      ensures owner.projects == Remove(old(owner.projects), project)
      ensures projectService.projects == Remove(old(projectService.projects), project)
      ensures owner.Valid() && projectService.Valid()
      ensures project !in owner.projects && project !in projectService.projects
    {
      RemoveDistinct(owner.projects, project);
      RemoveContents(owner.projects, project);
      RemoveContents(projectService.projects, project);
      owner.projects := Remove(owner.projects, project);
      projectService.DeleteProject(project);
    }
  }
}
