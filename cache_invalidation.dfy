/**
 * The decisions `SnykBulkFileListener` takes for one batch of file events, as pure
 * functions of the batch, the open projects and the state they read; the class in
 * module SnykBulkFileListener carries them out step by step.
 */
module CacheInvalidation {
  import opened Wrappers
  import opened Text
  import opened Vfs
  import opened AnalysisData

  /** The dependency-scan (OSS) results a project's tool window holds; their content is opaque here. */
  datatype OssResults = OssResults(rawCliOutput: string)

  /**
   * What the listener asks of the IDE: whether a project is disposed, whether a file is in
   * a project's content, whether the project's PSI manager finds a PSI file for a virtual
   * file, and whether Snyk Code supports that file's format.
   */
  datatype Host = Host(
    isDisposed: ProjectId -> bool,
    isInContent: (ProjectId, File) -> bool,
    hasPsiFile: (ProjectId, File) -> bool,
    isSupportedFileFormat: File -> bool)

  /** The calls the listener makes into collaborators whose effect is not modelled. */
  datatype Call =
    | RescanInBackgroundCancellableDelayed(project: ProjectId, delayMs: int, forceFullRescan: bool, clearCacheFirst: bool)
    | CleanIgnoreFileCachesIfAffected(project: ProjectId, files: set<File>)
    | UpdateIgnoreFileCachesIfAffected(project: ProjectId, files: set<File>)
  {
    function Project(): ProjectId {
      match this
      case RescanInBackgroundCancellableDelayed(p, _, _, _) => p
      case CleanIgnoreFileCachesIfAffected(p, _) => p
      case UpdateIgnoreFileCachesIfAffected(p, _) => p
    }
  }

  /** Event classes of the before-change pass. */
  const BeforeClasses: seq<EventKind> := [ContentChange, Move, Copy, Delete]

  /** Event classes of the after-change pass: deletions are not among them. */
  const AfterClasses: seq<EventKind> := [ContentChange, Move, Copy]

  /** The build and manifest file names, as listed (`project.assets.json` twice). */
  const SupportedBuildFiles: seq<string> := [
    "yarn.lock",
    "package-lock.json",
    "package.json",
    "Gemfile",
    "Gemfile.lock",
    "pom.xml",
    "build.gradle",
    "build.gradle.kts",
    "build.sbt",
    "Pipfile",
    "requirements.txt",
    "Gopkg.lock",
    "go.mod",
    "vendor.json",
    "project.assets.json",
    "project.assets.json",
    "packages.config",
    "paket.dependencies",
    "composer.lock",
    "Podfile",
    "Podfile.lock",
    "pyproject.toml",
    "poetry.lock"
  ]

  /** The same names as a set of distinct names. */
  const BuildFileNames: set<string> := {
    "yarn.lock", "package-lock.json", "package.json", "Gemfile", "Gemfile.lock", "pom.xml",
    "build.gradle", "build.gradle.kts", "build.sbt", "Pipfile", "requirements.txt", "Gopkg.lock",
    "go.mod", "vendor.json", "project.assets.json", "packages.config", "paket.dependencies",
    "composer.lock", "Podfile", "Podfile.lock", "pyproject.toml", "poetry.lock"
  }

  /** The file filter of the build-file query: the name is exactly a listed name. */
  predicate IsBuildFile(f: File) {
    f.name in SupportedBuildFiles
  }

  /** The file filter that accepts every file. */
  predicate AnyFile(f: File) {
    true
  }

  /** The repeated entry does not change which names count as build files. */
  lemma BuildFileListMembership(f: File)
    ensures IsBuildFile(f) <==> f.name in BuildFileNames
    ensures SupportedBuildFiles[14] == SupportedBuildFiles[15]
  {
  }

  // ---------------------------------------------------------------------------
  // Decisions for one project

  /** Some affected build file lies in the project's content. */
  predicate BuildFileChangedInContent(host: Host, p: ProjectId, events: seq<Event>, classes: seq<EventKind>) {
    exists f :: f in AffectedFiles(events, IsBuildFile, classes) && host.isInContent(p, f)
  }

  /** Some affected file has a PSI file of a format Snyk Code supports. */
  predicate SupportedFileChanged(host: Host, p: ProjectId, affected: set<File>) {
    exists f :: f in affected && host.hasPsiFile(p, f) && host.isSupportedFileFormat(f)
  }

  /** A running Snyk Code analysis of `p` is to be restarted. */
  predicate RescanWanted(host: Host, p: ProjectId, events: seq<Event>, classes: seq<EventKind>, running: set<ProjectId>) {
    SupportedFileChanged(host, p, AffectedFiles(events, AnyFile, classes)) && p in running
  }

  /** `f`'s path starts with the path of an affected directory (a raw prefix test, no separator check). */
  predicate InAffectedDirectory(f: File, affected: set<File>) {
    exists d :: d in affected && d.isDirectory && StartsWith(f.path, d.path)
  }

  /** The cached files that are affected themselves or lie in an affected directory. */
  function FilesToRemoveFromCache(cached: set<File>, affected: set<File>): (r: set<File>)
    ensures r <= cached
    ensures cached * affected <= r
  {
    set f | f in cached && (f in affected || InAffectedDirectory(f, affected))
  }

  /** The files of project `p` the before-change pass removes from the cache. */
  function FilesToEvict(cache: Cache, p: ProjectId, events: seq<Event>, classes: seq<EventKind>): set<File> {
    FilesToRemoveFromCache(CachedFiles(cache, p), AffectedFiles(events, AnyFile, classes))
  }

  /** The runnable the before-change pass schedules for `p`: none for a disposed project or nothing to remove. */
  function ProjectCacheTasks(host: Host, cache: Cache, p: ProjectId, events: seq<Event>, classes: seq<EventKind>): seq<CacheTask> {
    var toRemove := FilesToEvict(cache, p, events, classes);
    if host.isDisposed(p) || toRemove == {} then []
    else [CacheTask(UpdatingCachesTitle, p, toRemove)]
  }

  /** The collaborator calls the before-change pass makes for `p`, in order. */
  function ProjectCleanCalls(host: Host, running: set<ProjectId>, p: ProjectId, events: seq<Event>, classes: seq<EventKind>): seq<Call> {
    var affected := AffectedFiles(events, AnyFile, classes);
    if host.isDisposed(p) then []
    else
      (if SupportedFileChanged(host, p, affected) && p in running
       then [RescanInBackgroundCancellableDelayed(p, 0, false, false)] else [])
      + [CleanIgnoreFileCachesIfAffected(p, affected)]
  }

  /** The collaborator calls the after-change pass makes for `p`. */
  function ProjectUpdateCalls(host: Host, p: ProjectId, events: seq<Event>, classes: seq<EventKind>): seq<Call> {
    if host.isDisposed(p) then []
    else [UpdateIgnoreFileCachesIfAffected(p, AffectedFiles(events, AnyFile, classes))]
  }

  // ---------------------------------------------------------------------------
  // Decisions for all open projects, in the order they are enumerated

  /** The OSS results after the before-change pass: null for each open, non-disposed project a changed build file lies in. */
  function OssResultsAfter(host: Host, results: map<ProjectId, Option<OssResults>>, projects: seq<ProjectId>, events: seq<Event>, classes: seq<EventKind>): map<ProjectId, Option<OssResults>>
    decreases |projects|
  {
    if projects == [] then results
    else
      var earlier := OssResultsAfter(host, results, projects[..|projects| - 1], events, classes);
      var p := projects[|projects| - 1];
      if !host.isDisposed(p) && BuildFileChangedInContent(host, p, events, classes) then earlier[p := None] else earlier
  }

  /** Enumerating one more project adds that project's own decisions and nothing else. */
  lemma CleanStep(host: Host, cache: Cache, running: set<ProjectId>, projects: seq<ProjectId>, i: nat, events: seq<Event>, classes: seq<EventKind>)
    requires i < |projects|
    ensures forall results: map<ProjectId, Option<OssResults>> {:trigger OssResultsAfter(host, results, projects[..i + 1], events, classes)} ::
              OssResultsAfter(host, results, projects[..i + 1], events, classes)
              == var earlier := OssResultsAfter(host, results, projects[..i], events, classes);
                 if !host.isDisposed(projects[i]) && BuildFileChangedInContent(host, projects[i], events, classes)
                 then earlier[projects[i] := None] else earlier
    ensures CacheTasksFor(host, cache, projects[..i + 1], events, classes)
            == CacheTasksFor(host, cache, projects[..i], events, classes) + ProjectCacheTasks(host, cache, projects[i], events, classes)
    ensures CleanCallsFor(host, running, projects[..i + 1], events, classes)
            == CleanCallsFor(host, running, projects[..i], events, classes) + ProjectCleanCalls(host, running, projects[i], events, classes)
    ensures UpdateCallsFor(host, projects[..i + 1], events, classes)
            == UpdateCallsFor(host, projects[..i], events, classes) + ProjectUpdateCalls(host, projects[i], events, classes)
  {
    assert projects[..i + 1] == projects[..i] + [projects[i]];
    assert projects[..i + 1][..i] == projects[..i];
  }

  function CacheTasksFor(host: Host, cache: Cache, projects: seq<ProjectId>, events: seq<Event>, classes: seq<EventKind>): seq<CacheTask>
    decreases |projects|
  {
    if projects == [] then []
    else CacheTasksFor(host, cache, projects[..|projects| - 1], events, classes)
         + ProjectCacheTasks(host, cache, projects[|projects| - 1], events, classes)
  }

  function CleanCallsFor(host: Host, running: set<ProjectId>, projects: seq<ProjectId>, events: seq<Event>, classes: seq<EventKind>): seq<Call>
    decreases |projects|
  {
    if projects == [] then []
    else CleanCallsFor(host, running, projects[..|projects| - 1], events, classes)
         + ProjectCleanCalls(host, running, projects[|projects| - 1], events, classes)
  }

  function UpdateCallsFor(host: Host, projects: seq<ProjectId>, events: seq<Event>, classes: seq<EventKind>): seq<Call>
    decreases |projects|
  {
    if projects == [] then []
    else UpdateCallsFor(host, projects[..|projects| - 1], events, classes)
         + ProjectUpdateCalls(host, projects[|projects| - 1], events, classes)
  }

  // ---------------------------------------------------------------------------
  // What the passes decide

  /** A call the before-change pass can make, with the arguments it makes it with. */
  ghost predicate IsCleanCall(host: Host, running: set<ProjectId>, events: seq<Event>, classes: seq<EventKind>, c: Call) {
    match c
    case RescanInBackgroundCancellableDelayed(p, delay, force, clear) =>
      delay == 0 && !force && !clear && RescanWanted(host, p, events, classes, running)
    case CleanIgnoreFileCachesIfAffected(_, files) => files == AffectedFiles(events, AnyFile, classes)
    case UpdateIgnoreFileCachesIfAffected(_, _) => false
  }

  /**
   * The before-change pass schedules one runnable per open, non-disposed project that has
   * cached files to remove, capturing exactly those files, and none for any other project.
   */
  lemma {:induction false} CacheTasksForSpec(host: Host, cache: Cache, projects: seq<ProjectId>, events: seq<Event>, classes: seq<EventKind>)
    ensures forall t :: t in CacheTasksFor(host, cache, projects, events, classes) ==>
              && t.title == UpdatingCachesTitle
              && t.project in projects && !host.isDisposed(t.project)
              && t.filesToRemove == FilesToEvict(cache, t.project, events, classes)
              && t.filesToRemove != {}
              && t.filesToRemove <= CachedFiles(cache, t.project)
    ensures forall q :: q in projects && !host.isDisposed(q) && FilesToEvict(cache, q, events, classes) != {} ==>
              CacheTask(UpdatingCachesTitle, q, FilesToEvict(cache, q, events, classes))
                in CacheTasksFor(host, cache, projects, events, classes)
    decreases |projects|
  {
    if projects != [] {
      var init, last := projects[..|projects| - 1], projects[|projects| - 1];
      CacheTasksForSpec(host, cache, init, events, classes);
      assert projects == init + [last];
    }
  }

  /**
   * The before-change pass restarts, with delay 0 and both flags false, the analysis of
   * exactly those open, non-disposed projects that are being analysed and have a supported
   * file affected; it tells the ignore-file cache of every open, non-disposed project to
   * clean, with the affected files; it calls nothing for any other project.
   */
  lemma {:induction false} CleanCallsForSpec(host: Host, running: set<ProjectId>, projects: seq<ProjectId>, events: seq<Event>, classes: seq<EventKind>)
    ensures forall c :: c in CleanCallsFor(host, running, projects, events, classes) ==>
              c.Project() in projects && !host.isDisposed(c.Project()) && IsCleanCall(host, running, events, classes, c)
    ensures forall q :: q in projects && !host.isDisposed(q) ==>
              CleanIgnoreFileCachesIfAffected(q, AffectedFiles(events, AnyFile, classes))
                in CleanCallsFor(host, running, projects, events, classes)
    ensures forall q ::
              RescanInBackgroundCancellableDelayed(q, 0, false, false) in CleanCallsFor(host, running, projects, events, classes)
              <==> q in projects && !host.isDisposed(q) && RescanWanted(host, q, events, classes, running)
    decreases |projects|
  {
    if projects != [] {
      var init, last := projects[..|projects| - 1], projects[|projects| - 1];
      CleanCallsForSpec(host, running, init, events, classes);
      assert projects == init + [last];
      var earlier := CleanCallsFor(host, running, init, events, classes);
      var own := ProjectCleanCalls(host, running, last, events, classes);
      assert CleanCallsFor(host, running, projects, events, classes) == earlier + own;
      assert forall c :: c in own ==> c.Project() == last && !host.isDisposed(last) && IsCleanCall(host, running, events, classes, c);
      assert !host.isDisposed(last) ==> CleanIgnoreFileCachesIfAffected(last, AffectedFiles(events, AnyFile, classes)) in own;
      assert RescanInBackgroundCancellableDelayed(last, 0, false, false) in own
             <==> !host.isDisposed(last) && RescanWanted(host, last, events, classes, running);
    }
  }

  /** The IDE enumerates each open project once. */
  predicate DistinctProjects(projects: seq<ProjectId>) {
    forall i, j :: 0 <= i < j < |projects| ==> projects[i] != projects[j]
  }

  /** Dropping the last of distinct projects leaves distinct projects, none of them the last. */
  lemma DistinctInit(projects: seq<ProjectId>)
    requires projects != [] && DistinctProjects(projects)
    ensures DistinctProjects(projects[..|projects| - 1])
    ensures projects[|projects| - 1] !in projects[..|projects| - 1]
  {
    var init := projects[..|projects| - 1];
    forall i | 0 <= i < |init| ensures init[i] != projects[|projects| - 1] {
      assert init[i] == projects[i];
    }
  }

  /** No two entries of `s` of the given kind belong to the same project. */
  ghost predicate OnePerProject<T>(s: seq<T>, project: T -> ProjectId, kind: T -> bool) {
    forall i, j :: 0 <= i < |s| && 0 <= j < |s| && kind(s[i]) && kind(s[j]) && project(s[i]) == project(s[j]) ==> i == j
  }

  /** Appending entries all for one project that none of the earlier entries belongs to keeps one entry per project. */
  lemma OnePerProjectAppend<T>(earlier: seq<T>, own: seq<T>, project: T -> ProjectId, kind: T -> bool, last: ProjectId)
    requires OnePerProject(earlier, project, kind) && OnePerProject(own, project, kind)
    requires forall k :: 0 <= k < |earlier| ==> project(earlier[k]) != last
    requires forall k :: 0 <= k < |own| ==> project(own[k]) == last
    ensures OnePerProject(earlier + own, project, kind)
  {
    var s := earlier + own;
    assert forall k :: 0 <= k < |earlier| ==> s[k] == earlier[k];
    assert forall k :: |earlier| <= k < |s| ==> s[k] == own[k - |earlier|];
  }

  /**
   * With each open project enumerated once, the before-change pass schedules exactly one
   * runnable for a project that is not disposed and has cached files to remove, and none for
   * any other project.
   */
  lemma {:induction false} OneCacheTaskPerProject(host: Host, cache: Cache, projects: seq<ProjectId>, events: seq<Event>, classes: seq<EventKind>)
    requires DistinctProjects(projects)
    ensures var tasks := CacheTasksFor(host, cache, projects, events, classes);
            forall i, j :: 0 <= i < |tasks| && 0 <= j < |tasks| && tasks[i].project == tasks[j].project ==> i == j
    ensures var tasks := CacheTasksFor(host, cache, projects, events, classes);
            forall q :: (exists i :: 0 <= i < |tasks| && tasks[i].project == q) <==>
                          q in projects && !host.isDisposed(q) && FilesToEvict(cache, q, events, classes) != {}
  {
    var tasks := CacheTasksFor(host, cache, projects, events, classes);
    CacheTasksForSpec(host, cache, projects, events, classes);
    forall q | q in projects && !host.isDisposed(q) && FilesToEvict(cache, q, events, classes) != {}
      ensures exists i :: 0 <= i < |tasks| && tasks[i].project == q
    {
      var t := CacheTask(UpdatingCachesTitle, q, FilesToEvict(cache, q, events, classes));
      var i :| 0 <= i < |tasks| && tasks[i] == t;
    }
    CacheTasksOnePerProject(host, cache, projects, events, classes);
  }

  lemma {:induction false} CacheTasksOnePerProject(host: Host, cache: Cache, projects: seq<ProjectId>, events: seq<Event>, classes: seq<EventKind>)
    requires DistinctProjects(projects)
    ensures OnePerProject(CacheTasksFor(host, cache, projects, events, classes), (t: CacheTask) => t.project, _ => true)
    decreases |projects|
  {
    if projects != [] {
      var init, last := projects[..|projects| - 1], projects[|projects| - 1];
      DistinctInit(projects);
      CacheTasksOnePerProject(host, cache, init, events, classes);
      CacheTasksForSpec(host, cache, init, events, classes);
      var earlier := CacheTasksFor(host, cache, init, events, classes);
      assert forall k :: 0 <= k < |earlier| ==> earlier[k] in earlier;
      OnePerProjectAppend(earlier, ProjectCacheTasks(host, cache, last, events, classes), (t: CacheTask) => t.project, _ => true, last);
    }
  }

  /**
   * With each open project enumerated once, the before-change pass requests at most one
   * rescan per project and tells each project's ignore-file cache to clean at most once.
   */
  lemma OneCleanCallOfEachKindPerProject(host: Host, running: set<ProjectId>, projects: seq<ProjectId>, events: seq<Event>, classes: seq<EventKind>)
    requires DistinctProjects(projects)
    ensures var calls := CleanCallsFor(host, running, projects, events, classes);
            forall i, j ::
              (&& 0 <= i < |calls| && 0 <= j < |calls| && calls[i].Project() == calls[j].Project()
               && calls[i].RescanInBackgroundCancellableDelayed? && calls[j].RescanInBackgroundCancellableDelayed?) ==> i == j
    ensures var calls := CleanCallsFor(host, running, projects, events, classes);
            forall i, j ::
              (&& 0 <= i < |calls| && 0 <= j < |calls| && calls[i].Project() == calls[j].Project()
               && calls[i].CleanIgnoreFileCachesIfAffected? && calls[j].CleanIgnoreFileCachesIfAffected?) ==> i == j
  {
    CleanCallsOnePerProject(host, running, projects, events, classes, true);
    CleanCallsOnePerProject(host, running, projects, events, classes, false);
  }

  /** A rescan request, or a clean call for the ignore-file caches. */
  predicate IsCleanCallKind(rescan: bool, c: Call) {
    if rescan then c.RescanInBackgroundCancellableDelayed? else c.CleanIgnoreFileCachesIfAffected?
  }

  lemma {:induction false} CleanCallsOnePerProject(host: Host, running: set<ProjectId>, projects: seq<ProjectId>, events: seq<Event>, classes: seq<EventKind>,
                                                   rescan: bool)
    requires DistinctProjects(projects)
    ensures OnePerProject(CleanCallsFor(host, running, projects, events, classes), (c: Call) => c.Project(), (c: Call) => IsCleanCallKind(rescan, c))
    decreases |projects|
  {
    if projects != [] {
      var init, last := projects[..|projects| - 1], projects[|projects| - 1];
      DistinctInit(projects);
      CleanCallsOnePerProject(host, running, init, events, classes, rescan);
      CleanCallsForSpec(host, running, init, events, classes);
      var earlier := CleanCallsFor(host, running, init, events, classes);
      var own := ProjectCleanCalls(host, running, last, events, classes);
      assert forall k :: 0 <= k < |earlier| ==> earlier[k] in earlier;
      assert OnePerProject(own, (c: Call) => c.Project(), (c: Call) => IsCleanCallKind(rescan, c)) by {
        assert |own| <= 2;
        assert |own| == 2 ==> own[0].RescanInBackgroundCancellableDelayed? && own[1].CleanIgnoreFileCachesIfAffected?;
      }
      OnePerProjectAppend(earlier, own, (c: Call) => c.Project(), (c: Call) => IsCleanCallKind(rescan, c), last);
    }
  }

  /**
   * The after-change pass tells the ignore-file cache of every open, non-disposed project to
   * update, with the affected files, and calls nothing else.
   */
  lemma {:induction false} UpdateCallsForSpec(host: Host, projects: seq<ProjectId>, events: seq<Event>, classes: seq<EventKind>)
    ensures forall c :: c in UpdateCallsFor(host, projects, events, classes) ==>
              && c.UpdateIgnoreFileCachesIfAffected?
              && c.project in projects && !host.isDisposed(c.project)
              && c.files == AffectedFiles(events, AnyFile, classes)
    ensures forall q :: q in projects && !host.isDisposed(q) ==>
              UpdateIgnoreFileCachesIfAffected(q, AffectedFiles(events, AnyFile, classes))
                in UpdateCallsFor(host, projects, events, classes)
    decreases |projects|
  {
    if projects != [] {
      var init, last := projects[..|projects| - 1], projects[|projects| - 1];
      UpdateCallsForSpec(host, init, events, classes);
      assert projects == init + [last];
    }
  }

  /** A disposed project is skipped by both passes: its results are kept and nothing is scheduled or called for it. */
  lemma DisposedProjectUntouched(host: Host, cache: Cache, running: set<ProjectId>, results: map<ProjectId, Option<OssResults>>,
                                 projects: seq<ProjectId>, events: seq<Event>, q: ProjectId)
    requires host.isDisposed(q)
    ensures var r := OssResultsAfter(host, results, projects, events, BeforeClasses);
            (q in r <==> q in results) && (q in r ==> r[q] == results[q])
    ensures forall t :: t in CacheTasksFor(host, cache, projects, events, BeforeClasses) ==> t.project != q
    ensures forall c :: c in CleanCallsFor(host, running, projects, events, BeforeClasses) ==> c.Project() != q
    ensures forall c :: c in UpdateCallsFor(host, projects, events, AfterClasses) ==> c.Project() != q
  {
    OssResultsDroppedIff(host, results, projects, events, q);
    CacheTasksForSpec(host, cache, projects, events, BeforeClasses);
    CleanCallsForSpec(host, running, projects, events, BeforeClasses);
    UpdateCallsForSpec(host, projects, events, AfterClasses);
  }

  /**
   * The OSS results of a project are dropped exactly when it is open, not disposed, and a
   * changed build file lies in its content; all other results are kept as they were.
   */
  lemma {:induction false} OssResultsDroppedIff(host: Host, results: map<ProjectId, Option<OssResults>>, projects: seq<ProjectId>, events: seq<Event>, q: ProjectId)
    ensures var r := OssResultsAfter(host, results, projects, events, BeforeClasses);
            q in projects && !host.isDisposed(q) && BuildFileChangedInContent(host, q, events, BeforeClasses) ==>
              q in r && r[q] == None
    ensures var r := OssResultsAfter(host, results, projects, events, BeforeClasses);
            !(q in projects && !host.isDisposed(q) && BuildFileChangedInContent(host, q, events, BeforeClasses)) ==>
              (q in r <==> q in results) && (q in r ==> r[q] == results[q])
    ensures OssResultsAfter(host, results, projects, events, BeforeClasses).Keys <= results.Keys + set p | p in projects
    decreases |projects|
  {
    if projects != [] {
      var init, last := projects[..|projects| - 1], projects[|projects| - 1];
      OssResultsDroppedIff(host, results, init, events, q);
      assert projects == init + [last];
    }
  }

  /** Files of deletion events count for the before-change pass and never for the after-change pass. */
  lemma DeletionsOnlyBeforeChange(a: seq<Event>, e: Event, b: seq<Event>)
    requires e.kind == Delete
    ensures AffectedFiles(a + [e] + b, AnyFile, AfterClasses) == AffectedFiles(a + b, AnyFile, AfterClasses)
    ensures AffectedFiles(a + [e] + b, AnyFile, BeforeClasses)
            == AffectedFiles(a + b, AnyFile, BeforeClasses) + (if e.file.Some? then {e.file.value} else {})
  {
    UnlistedEventIgnored(a, e, b, AnyFile, AfterClasses);
    ListedEventAdds(a, e, b, AnyFile, BeforeClasses);
  }

  /** What the after-change pass sees affected, the before-change pass saw affected too. */
  lemma AfterAffectedWithinBefore(events: seq<Event>, fileFilter: File -> bool)
    ensures AffectedFiles(events, fileFilter, AfterClasses) <= AffectedFiles(events, fileFilter, BeforeClasses)
  {
    AffectedFilesMembership(events, fileFilter, AfterClasses);
    AffectedFilesMembership(events, fileFilter, BeforeClasses);
    forall f | f in AffectedFiles(events, fileFilter, AfterClasses) ensures f in AffectedFiles(events, fileFilter, BeforeClasses) {
      var i :| 0 <= i < |events| && Selects(events[i], fileFilter, AfterClasses, f);
      assert Selects(events[i], fileFilter, BeforeClasses, f);
    }
  }

  /** A cached file whose path continues an affected directory's path is removed. */
  lemma DirectoryEvictsItsContents(cached: set<File>, affected: set<File>, d: File, f: File, rest: string)
    requires d in affected && d.isDirectory
    requires f in cached && f.path == d.path + rest
    ensures f in FilesToRemoveFromCache(cached, affected)
  {
    assert (d.path + rest)[..|d.path|] == d.path;
  }

  /** The prefix test has no separator check: removing `/p/src` also evicts `/p/src2/a.py`. */
  lemma RawPrefixAlsoEvictsSiblings()
    ensures var dir := File("/p/src", "src", true);
            var sibling := File("/p/src2/a.py", "a.py", false);
            sibling in FilesToRemoveFromCache({sibling}, {dir})
  {
    var dir := File("/p/src", "src", true);
    var sibling := File("/p/src2/a.py", "a.py", false);
    assert StartsWith(sibling.path, dir.path);
  }

  /** A cached file neither affected nor under an affected directory is kept. */
  lemma UnaffectedFileKept(cached: set<File>, affected: set<File>, f: File)
    requires f !in affected
    requires forall d :: d in affected && d.isDirectory ==> !StartsWith(f.path, d.path)
    ensures f !in FilesToRemoveFromCache(cached, affected)
  {
  }

  /**
   * Once the runnables of a before-change pass have run (after whatever was queued before
   * them), no file the pass chose to evict for an open, non-disposed project is still cached,
   * and a project with more than ten such files has no cached files at all.
   */
  lemma BeforePassEvicts(host: Host, cache: Cache, pending: seq<CacheTask>, projects: seq<ProjectId>, events: seq<Event>, q: ProjectId)
    requires q in projects && !host.isDisposed(q)
    ensures var evict := FilesToEvict(cache, q, events, BeforeClasses);
            var after := RunTasks(cache, pending + CacheTasksFor(host, cache, projects, events, BeforeClasses));
            && CachedFiles(after, q) !! evict
            && (|evict| > BulkEvictionThreshold ==> CachedFiles(after, q) == {})
  {
    var evict := FilesToEvict(cache, q, events, BeforeClasses);
    var tasks := pending + CacheTasksFor(host, cache, projects, events, BeforeClasses);
    if evict != {} {
      CacheTasksForSpec(host, cache, projects, events, BeforeClasses);
      RunTasksEvicts(cache, tasks, CacheTask(UpdatingCachesTitle, q, evict));
    }
  }

  /** Running the before-change pass twice on the same batch leaves the same cache as running it once. */
  lemma BeforePassIdempotent(host: Host, cache: Cache, pending: seq<CacheTask>, projects: seq<ProjectId>, events: seq<Event>)
    ensures var tasks := CacheTasksFor(host, cache, projects, events, BeforeClasses);
            RunTasks(cache, pending + tasks + tasks) == RunTasks(cache, pending + tasks)
  {
    RepeatedTailIsNoOp(cache, pending, CacheTasksFor(host, cache, projects, events, BeforeClasses));
  }

  /**
   * A content change of `package.json` inside an open project drops its OSS results and,
   * the file not being a supported Snyk Code format, restarts no analysis.
   */
  lemma PackageJsonChangeScenario(host: Host, running: set<ProjectId>, projects: seq<ProjectId>, pkg: File, q: ProjectId)
    requires pkg.name == "package.json" && !host.isSupportedFileFormat(pkg)
    requires q in projects && !host.isDisposed(q) && host.isInContent(q, pkg)
    ensures var events := [Event(ContentChange, Some(pkg))];
            var r := OssResultsAfter(host, map[], projects, events, BeforeClasses);
            && q in r && r[q] == None
            && RescanInBackgroundCancellableDelayed(q, 0, false, false) !in CleanCallsFor(host, running, projects, events, BeforeClasses)
  {
    var events := [Event(ContentChange, Some(pkg))];
    AffectedFilesMembership(events, IsBuildFile, BeforeClasses);
    AffectedFilesMembership(events, AnyFile, BeforeClasses);
    assert Selects(events[0], IsBuildFile, BeforeClasses, pkg);
    assert AffectedFiles(events, AnyFile, BeforeClasses) == {pkg} by {
      assert Selects(events[0], AnyFile, BeforeClasses, pkg);
    }
    CleanCallsForSpec(host, running, projects, events, BeforeClasses);
    OssResultsDroppedIff(host, map[], projects, events, q);
  }
}
