/**
 * The bulk file listener and the plugin state it changes: each project's OSS results,
 * the Snyk Code analysis cache, the task queue and the calls into the rescan scheduler
 * and the ignore-file caches.
 */
module SnykBulkFileListener {
  import opened Wrappers
  import opened Vfs
  import opened AnalysisData
  import opened CacheInvalidation

  class Workbench {
    /** `currentOssResults` of each project's tool window; None stands for null. */
    var ossResults: map<ProjectId, Option<OssResults>>
    /** The Snyk Code cache: cached files per project. */
    var analysisCache: Cache
    /** The projects whose Snyk Code analysis is in progress. */
    var analysisInProgress: set<ProjectId>
    /** Runnables scheduled on the task queue and not yet run. */
    var taskQueue: seq<CacheTask>
    /** The calls made into the rescan scheduler and the ignore-file caches, in order. */
    var calls: seq<Call>

    constructor (results: map<ProjectId, Option<OssResults>>, cache: Cache, running: set<ProjectId>)
      ensures ossResults == results && analysisCache == cache && analysisInProgress == running
      ensures taskQueue == [] && calls == []
    {
      ossResults, analysisCache, analysisInProgress := results, cache, running;
      taskQueue, calls := [], [];
    }

    /** The listener's `before`: clean caches for content-change, move, copy and delete events. */
    method Before(host: Host, openProjects: seq<ProjectId>, events: seq<Event>)
      modifies this
      ensures ossResults == OssResultsAfter(host, old(ossResults), openProjects, events, BeforeClasses)
      ensures analysisCache == old(analysisCache) && analysisInProgress == old(analysisInProgress)
      ensures taskQueue == old(taskQueue) + CacheTasksFor(host, old(analysisCache), openProjects, events, BeforeClasses)
      ensures calls == old(calls) + CleanCallsFor(host, old(analysisInProgress), openProjects, events, BeforeClasses)
    {
      CleanCaches(host, openProjects, events, BeforeClasses);
    }

    /** The listener's `after`: update caches for content-change, move and copy events. */
    method After(host: Host, openProjects: seq<ProjectId>, events: seq<Event>)
      modifies this
      ensures ossResults == old(ossResults) && analysisCache == old(analysisCache)
      ensures analysisInProgress == old(analysisInProgress) && taskQueue == old(taskQueue)
      ensures calls == old(calls) + UpdateCallsFor(host, openProjects, events, AfterClasses)
    {
      UpdateCaches(host, openProjects, events, AfterClasses);
    }

    method CleanCaches(host: Host, openProjects: seq<ProjectId>, events: seq<Event>, classes: seq<EventKind>)
      modifies this
      ensures ossResults == OssResultsAfter(host, old(ossResults), openProjects, events, classes)
      ensures analysisCache == old(analysisCache) && analysisInProgress == old(analysisInProgress)
      ensures taskQueue == old(taskQueue) + CacheTasksFor(host, old(analysisCache), openProjects, events, classes)
      ensures calls == old(calls) + CleanCallsFor(host, old(analysisInProgress), openProjects, events, classes)
    {
      for i := 0 to |openProjects|
        invariant ossResults == OssResultsAfter(host, old(ossResults), openProjects[..i], events, classes)
        invariant analysisCache == old(analysisCache) && analysisInProgress == old(analysisInProgress)
        invariant taskQueue == old(taskQueue) + CacheTasksFor(host, old(analysisCache), openProjects[..i], events, classes)
        invariant calls == old(calls) + CleanCallsFor(host, old(analysisInProgress), openProjects[..i], events, classes)
      {
        CleanStep(host, old(analysisCache), old(analysisInProgress), openProjects, i, events, classes);
        AppendAssociative(old(taskQueue), CacheTasksFor(host, old(analysisCache), openProjects[..i], events, classes),
                          ProjectCacheTasks(host, old(analysisCache), openProjects[i], events, classes));
        AppendAssociative(old(calls), CleanCallsFor(host, old(analysisInProgress), openProjects[..i], events, classes),
                          ProjectCleanCalls(host, old(analysisInProgress), openProjects[i], events, classes));
        CleanProjectCaches(host, openProjects[i], events, classes);
      }
      assert openProjects[..|openProjects|] == openProjects;
    }

    /** One iteration of the before-change loop: the work done for one open project. */
    method CleanProjectCaches(host: Host, project: ProjectId, events: seq<Event>, classes: seq<EventKind>)
      modifies this
      ensures ossResults == if !host.isDisposed(project) && BuildFileChangedInContent(host, project, events, classes)
                            then old(ossResults)[project := None] else old(ossResults)
      ensures analysisCache == old(analysisCache) && analysisInProgress == old(analysisInProgress)
      ensures taskQueue == old(taskQueue) + ProjectCacheTasks(host, old(analysisCache), project, events, classes)
      ensures calls == old(calls) + ProjectCleanCalls(host, old(analysisInProgress), project, events, classes)
    {
      if host.isDisposed(project) {
        return;
      }

      // clean OSS cached results
      var changedBuildFiles := AffectedFiles(events, IsBuildFile, classes);
      var buildFileInContent := exists f :: f in changedBuildFiles && host.isInContent(project, f);
      assert buildFileInContent == BuildFileChangedInContent(host, project, events, classes);
      if buildFileInContent {
        ossResults := ossResults[project := None];
      }

      var virtualFilesAffected := AffectedFiles(events, AnyFile, classes);

      // restart a running Snyk Code analysis when a supported file changed
      var supportedFileChanged := SupportedFileChanged(host, project, virtualFilesAffected);
      var isSnykCodeRunning := project in analysisInProgress;
      var rescans: seq<Call> := [];
      if supportedFileChanged && isSnykCodeRunning {
        rescans := [RescanInBackgroundCancellableDelayed(project, 0, false, false)];
      }
      calls := calls + rescans;

      // remove changed files from the Snyk Code cache
      var allCachedFiles := CachedFiles(analysisCache, project);
      var filesToRemoveFromCache := FilesToRemoveFromCache(allCachedFiles, virtualFilesAffected);
      assert filesToRemoveFromCache == FilesToEvict(analysisCache, project, events, classes);
      if filesToRemoveFromCache != {} {
        taskQueue := taskQueue + [CacheTask(UpdatingCachesTitle, project, filesToRemoveFromCache)];
      }

      // clean ignore-file caches if needed
      calls := calls + [CleanIgnoreFileCachesIfAffected(project, virtualFilesAffected)];
      AppendAssociative(old(calls), rescans, [CleanIgnoreFileCachesIfAffected(project, virtualFilesAffected)]);
    }

    method UpdateCaches(host: Host, openProjects: seq<ProjectId>, events: seq<Event>, classes: seq<EventKind>)
      modifies this
      ensures ossResults == old(ossResults) && analysisCache == old(analysisCache)
      ensures analysisInProgress == old(analysisInProgress) && taskQueue == old(taskQueue)
      ensures calls == old(calls) + UpdateCallsFor(host, openProjects, events, classes)
    {
      for i := 0 to |openProjects|
        invariant ossResults == old(ossResults) && analysisCache == old(analysisCache)
        invariant analysisInProgress == old(analysisInProgress) && taskQueue == old(taskQueue)
        invariant calls == old(calls) + UpdateCallsFor(host, openProjects[..i], events, classes)
      {
        var project := openProjects[i];
        CleanStep(host, old(analysisCache), old(analysisInProgress), openProjects, i, events, classes);
        AppendAssociative(old(calls), UpdateCallsFor(host, openProjects[..i], events, classes),
                          ProjectUpdateCalls(host, project, events, classes));
        if host.isDisposed(project) {
          continue;
        }
        var virtualFilesAffected := AffectedFiles(events, AnyFile, classes);

        // update ignore-file caches if needed
        calls := calls + [UpdateIgnoreFileCachesIfAffected(project, virtualFilesAffected)];
      }
      assert openProjects[..|openProjects|] == openProjects;
    }

    /** `removeProjectFromCaches(project)`. */
    method RemoveProjectFromCaches(project: ProjectId)
      modifies this`analysisCache
      ensures CachedFiles(analysisCache, project) == {} && project !in analysisCache
      ensures forall q :: q != project ==> (q in analysisCache <==> q in old(analysisCache))
      ensures forall q :: q != project ==> CachedFiles(analysisCache, q) == CachedFiles(old(analysisCache), q)
    {
      analysisCache := analysisCache - {project};
    }

    /** `removeFilesFromCache(files)`, for files cached for `project`. */
    method RemoveFilesFromCache(project: ProjectId, files: set<File>)
      modifies this`analysisCache
      ensures CachedFiles(analysisCache, project) == CachedFiles(old(analysisCache), project) - files
      ensures analysisCache.Keys == old(analysisCache).Keys
      ensures forall q :: q != project ==> CachedFiles(analysisCache, q) == CachedFiles(old(analysisCache), q)
    {
      if project in analysisCache {
        analysisCache := analysisCache[project := analysisCache[project] - files];
      }
    }

    /** The task queue runs the first scheduled runnable, if there is one. */
    method RunScheduledTask() returns (ran: bool)
      modifies this
      ensures ran <==> old(taskQueue) != []
      ensures ran ==> analysisCache == ApplyCacheTask(old(analysisCache), old(taskQueue)[0]) && taskQueue == old(taskQueue)[1..]
      ensures !ran ==> analysisCache == old(analysisCache) && taskQueue == old(taskQueue)
      ensures ossResults == old(ossResults) && analysisInProgress == old(analysisInProgress) && calls == old(calls)
    {
      if taskQueue == [] {
        return false;
      }
      var task := taskQueue[0];
      taskQueue := taskQueue[1..];
      if |task.filesToRemove| > BulkEvictionThreshold {
        // a bulk change (like a branch checkout): drop the project and let a full rescan follow
        RemoveProjectFromCaches(task.project);
      } else {
        RemoveFilesFromCache(task.project, task.filesToRemove);
      }
      assert analysisCache == ApplyCacheTask(old(analysisCache), task);
      return true;
    }

    /** The task queue runs every scheduled runnable, in order. */
    method RunAllScheduledTasks()
      modifies this
      ensures analysisCache == RunTasks(old(analysisCache), old(taskQueue)) && taskQueue == []
      ensures ossResults == old(ossResults) && analysisInProgress == old(analysisInProgress) && calls == old(calls)
    {
      while taskQueue != []
        invariant RunTasks(analysisCache, taskQueue) == RunTasks(old(analysisCache), old(taskQueue))
        invariant ossResults == old(ossResults) && analysisInProgress == old(analysisInProgress) && calls == old(calls)
        decreases |taskQueue|
      {
        var _ := RunScheduledTask();
      }
    }
  }

  /**
   * A batch handled by `before`, then the queue drained: nothing the pass chose to evict for an
   * open, non-disposed project is still cached, and more than ten such files emptied the project.
   */
  method BeforeThenDrain(w: Workbench, host: Host, openProjects: seq<ProjectId>, events: seq<Event>, q: ProjectId)
    requires q in openProjects && !host.isDisposed(q)
    modifies w
    ensures CachedFiles(w.analysisCache, q) !! FilesToEvict(old(w.analysisCache), q, events, BeforeClasses)
    ensures |FilesToEvict(old(w.analysisCache), q, events, BeforeClasses)| > BulkEvictionThreshold ==>
              CachedFiles(w.analysisCache, q) == {}
  {
    w.Before(host, openProjects, events);
    w.RunAllScheduledTasks();
    BeforePassEvicts(host, old(w.analysisCache), old(w.taskQueue), openProjects, events, q);
  }

  lemma AppendAssociative<T>(a: seq<T>, b: seq<T>, c: seq<T>)
    ensures a + b + c == a + (b + c)
  {
  }
}
